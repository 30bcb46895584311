/**
 * The pg2pg script generator: one pipeline step becomes a PostgreSQL script
 * that backs up or creates the target table, copies the rows with a
 * job_timestamp column and reports source and target counts.
 *
 * The script is modelled as a plan (the sections the generator appends, in
 * order) and the text of each section; the plan is where the structural
 * promises (transaction bracket, paired trigger and constraint switches,
 * optional filter) are proved.
 */
module Pg2PgSqlGenerator {
  import opened JavaStr
  import opened QuotedNames
  import opened PipelineModel

  // ------------------------------------------------------------ source expressions

  /** Holds none of the characters the placeholders start with. */
  predicate Inert(s: string)
  {
    '%' !in s && '{' !in s && '$' !in s
  }

  /** The three placeholder substitutions, in the order the generator applies them. */
  function Placeholders(t: string, col: string): string
  {
    Replace(Replace(Replace(t, "%s", col), "{sourceColumn}", col), "${sourceColumn}", col)
  }

  /**
   * What follows the substitutions: the text is kept when it mentions the
   * column quoted as the generator quotes it, or as "name" (a null name
   * printing as null); otherwise bare occurrences of the name are replaced,
   * which throws for a null name (None).
   */
  function FinishExpression(t: string, col: string, source: Option<string>): Option<string>
  {
    if Contains(t, col) || Contains(t, "\"" + JavaString(source) + "\"") then Some(t)
    else if source.None? then None
    else Some(Replace(t, source.value, col))
  }

  /**
   * buildSourceExpression. A null or blank transformation is the quoted source
   * column; any other goes through the placeholder substitutions and the
   * bare-name fallback.
   */
  function BuildSourceExpression(m: Pg2PgColumnMapping): (r: Option<string>)
    ensures m.transformation.None? || IsBlank(m.transformation.value) ==>
              r == Some(QuoteIdentifier(m.sourceColumn))
    ensures r.None? ==> m.sourceColumn.None?
  {
    TrimEmptyIffBlank(if m.transformation.Some? then m.transformation.value else []);
    var col := QuoteIdentifier(m.sourceColumn);
    if m.transformation.None? || Trim(m.transformation.value) == [] then Some(col)
    else FinishExpression(Placeholders(m.transformation.value, col), col, m.sourceColumn)
  }

  /** A mapping with the given source column and transformation, nothing else set. */
  function Mapping(source: string, transformation: string): Pg2PgColumnMapping
  {
    Pg2PgColumnMapping(None, Some(source), None, None, None, None, Some(transformation),
                       None, None, None, None, None)
  }

  /** A name the placeholder scans cannot disturb. */
  predicate PlainColumn(raw: string)
  {
    raw != [] && '"' !in raw && Inert(raw)
  }

  lemma QuotedPlain(raw: string)
    requires PlainColumn(raw)
    ensures QuoteIdentifier(Some(raw)) == "\"" + raw + "\""
    ensures Inert(QuoteIdentifier(Some(raw)))
  {
  }

  /** Text holding a character above ' ' is not blank. */
  lemma NotBlankAt(s: string, i: int)
    requires 0 <= i < |s| && !IsTrimChar(s[i])
    ensures !IsBlank(s)
  {
  }

  /** f + col + g contains col at position |f|. */
  lemma ContainsAt(f: string, col: string, g: string)
    ensures Contains(f + col + g, col)
  {
    assert (f + col + g)[|f|..|f| + |col|] == col;
    assert OccursAt(f + col + g, col, |f|);
  }

  /** A transformation that already mentions the quoted column is the expression. */
  lemma ExpressionMentioningColumn(m: Pg2PgColumnMapping, t: string)
    requires m.transformation == Some(t) && !IsBlank(t)
    requires Contains(Placeholders(t, QuoteIdentifier(m.sourceColumn)), QuoteIdentifier(m.sourceColumn))
    ensures BuildSourceExpression(m) == Some(Placeholders(t, QuoteIdentifier(m.sourceColumn)))
  {
    TrimEmptyIffBlank(t);
  }

  lemma PercentSubstitution(f: string, g: string, col: string)
    requires Inert(f) && Inert(g) && Inert(col)
    ensures Placeholders(f + "%s" + g, col) == f + col + g
  {
    var t := f + "%s" + g;
    assert t == f + ("%s" + g);
    ReplaceUntouchedPrefix(f, "%s" + g, "%s", col);
    ReplaceLeading("%s", g, col);
    ReplaceWithoutFirstChar(g, "%s", col);
    var t1 := f + col + g;
    assert Replace(t, "%s", col) == t1;
    ReplaceWithoutFirstChar(t1, "{sourceColumn}", col);
    ReplaceWithoutFirstChar(t1, "${sourceColumn}", col);
  }

  lemma BraceSubstitution(f: string, g: string, col: string)
    requires Inert(f) && Inert(g) && Inert(col)
    ensures Placeholders(f + "{sourceColumn}" + g, col) == f + col + g
  {
    var t := f + "{sourceColumn}" + g;
    ReplaceWithoutFirstChar(t, "%s", col);
    assert t == f + ("{sourceColumn}" + g);
    ReplaceUntouchedPrefix(f, "{sourceColumn}" + g, "{sourceColumn}", col);
    ReplaceLeading("{sourceColumn}", g, col);
    ReplaceWithoutFirstChar(g, "{sourceColumn}", col);
    var t1 := f + col + g;
    assert Replace(t, "{sourceColumn}", col) == t1;
    ReplaceWithoutFirstChar(t1, "${sourceColumn}", col);
  }

  lemma Regroup(a: string, b: string, c: string, d: string)
    ensures a + (b + c) + d == (a + b) + (c + d)
  {
  }

  /** A target preceded by '$' is replaced, the '$' kept. */
  lemma ReplaceAfterDollar(f: string, g: string, col: string, target: string)
    requires target != [] && target[0] !in f && target[0] != '$' && target[0] !in g
    ensures Replace(f + ("$" + target) + g, target, col) == f + ("$" + (col + g))
  {
    var pre, rest := f + "$", target + g;
    Regroup(f, "$", target, g);
    ReplaceUntouchedPrefix(pre, rest, target, col);
    ReplaceLeading(target, g, col);
    ReplaceWithoutFirstChar(g, target, col);
    assert Replace(pre + rest, target, col) == pre + (col + g);
    AppendAssoc(f, "$", col + g);
  }

  /** The brace replace rewrites the inside of "${sourceColumn}", leaving its '$'. */
  lemma BraceInsideDollar(f: string, g: string, col: string)
    requires Inert(f) && Inert(g) && Inert(col)
    ensures Replace(Replace(f + "${sourceColumn}" + g, "%s", col), "{sourceColumn}", col) == f + ("$" + (col + g))
  {
    ReplaceWithoutFirstChar(f + "${sourceColumn}" + g, "%s", col);
    assert "${sourceColumn}" == "$" + "{sourceColumn}";
    ReplaceAfterDollar(f, g, col, "{sourceColumn}");
  }

  /** After that, the text holds a '$' followed by '"', never "${sourceColumn}". */
  lemma DollarBeforeQuote(f: string, g: string, col: string)
    requires Inert(f) && Inert(g) && Inert(col) && col != [] && col[0] == '"'
    ensures Replace(f + ("$" + (col + g)), "${sourceColumn}", col) == f + ("$" + (col + g))
  {
    var rest := "$" + (col + g);
    ReplaceUntouchedPrefix(f, rest, "${sourceColumn}", col);
    assert !StartsWith(rest, "${sourceColumn}") by {
      if |rest| >= 15 {
        assert rest[..15][1] == rest[1] == '"';
      }
    }
    assert rest[1..] == col + g;
    ReplaceWithoutFirstChar(col + g, "${sourceColumn}", col);
  }

  lemma DollarSubstitution(f: string, g: string, col: string)
    requires Inert(f) && Inert(g) && Inert(col) && col != [] && col[0] == '"'
    ensures Placeholders(f + "${sourceColumn}" + g, col) == f + "$" + col + g
  {
    BraceInsideDollar(f, g, col);
    DollarBeforeQuote(f, g, col);
    assert f + ("$" + (col + g)) == f + "$" + col + g;
  }

  /** "%s" is replaced by the quoted column: f%sg becomes f"col"g. */
  lemma PercentPlaceholder(f: string, g: string, raw: string)
    requires Inert(f) && Inert(g) && PlainColumn(raw)
    ensures BuildSourceExpression(Mapping(raw, f + "%s" + g)) ==
            Some(f + QuoteIdentifier(Some(raw)) + g)
  {
    var col := QuoteIdentifier(Some(raw));
    QuotedPlain(raw);
    var t := f + "%s" + g;
    NotBlankAt(t, |f|);
    PercentSubstitution(f, g, col);
    ContainsAt(f, col, g);
    ExpressionMentioningColumn(Mapping(raw, t), t);
  }

  /** "{sourceColumn}" is replaced by the quoted column. */
  lemma BracePlaceholder(f: string, g: string, raw: string)
    requires Inert(f) && Inert(g) && PlainColumn(raw)
    ensures BuildSourceExpression(Mapping(raw, f + "{sourceColumn}" + g)) ==
            Some(f + QuoteIdentifier(Some(raw)) + g)
  {
    var col := QuoteIdentifier(Some(raw));
    QuotedPlain(raw);
    var t := f + "{sourceColumn}" + g;
    NotBlankAt(t, |f|);
    BraceSubstitution(f, g, col);
    ContainsAt(f, col, g);
    ExpressionMentioningColumn(Mapping(raw, t), t);
  }

  /**
   * "${sourceColumn}" keeps its '$': the brace form inside it is replaced
   * first, so the later "${sourceColumn}" replace never finds anything.
   */
  lemma DollarPlaceholder(f: string, g: string, raw: string)
    requires Inert(f) && Inert(g) && PlainColumn(raw)
    ensures BuildSourceExpression(Mapping(raw, f + "${sourceColumn}" + g)) ==
            Some(f + "$" + QuoteIdentifier(Some(raw)) + g)
  {
    var col := QuoteIdentifier(Some(raw));
    QuotedPlain(raw);
    var t := f + "${sourceColumn}" + g;
    NotBlankAt(t, |f|);
    DollarSubstitution(f, g, col);
    assert f + "$" + col + g == (f + "$") + col + g;
    ContainsAt(f + "$", col, g);
    ExpressionMentioningColumn(Mapping(raw, t), t);
  }

  /**
   * A transformation without placeholders that does not yet mention the
   * quoted column has every bare occurrence of the column name replaced.
   */
  lemma BareColumnName(t: string, raw: string)
    requires Inert(t) && PlainColumn(raw) && !IsBlank(t)
    requires !Contains(t, "\"" + raw + "\"")
    ensures BuildSourceExpression(Mapping(raw, t)) == Some(Replace(t, raw, "\"" + raw + "\""))
  {
    var col := QuoteIdentifier(Some(raw));
    QuotedPlain(raw);
    TrimEmptyIffBlank(t);
    ReplaceWithoutFirstChar(t, "%s", col);
    ReplaceWithoutFirstChar(t, "{sourceColumn}", col);
    ReplaceWithoutFirstChar(t, "${sourceColumn}", col);
    assert Placeholders(t, col) == t;
  }

  // ------------------------------------------------------------ column lists

  /** The INSERT column list: one quoted target column per mapping, in order. */
  function TargetColumns(ms: seq<Pg2PgColumnMapping>): (r: seq<string>)
    ensures |r| == |ms|
  {
    if ms == [] then [] else TargetColumns(ms[..|ms| - 1]) + [QuoteIdentifier(ms[|ms| - 1].targetColumn)]
  }

  lemma {:induction false} TargetColumnsAt(ms: seq<Pg2PgColumnMapping>, i: int)
    requires 0 <= i < |ms|
    ensures TargetColumns(ms)[i] == QuoteIdentifier(ms[i].targetColumn)
  {
    if i < |ms| - 1 {
      TargetColumnsAt(ms[..|ms| - 1], i);
    }
  }

  /** The SELECT list: one source expression per mapping; None if any throws. */
  function SourceExpressions(ms: seq<Pg2PgColumnMapping>): (r: Option<seq<string>>)
    ensures r.Some? ==> |r.value| == |ms|
  {
    if ms == [] then Some([])
    else
      var init := SourceExpressions(ms[..|ms| - 1]);
      var last := BuildSourceExpression(ms[|ms| - 1]);
      if init.None? || last.None? then None else Some(init.value + [last.value])
  }

  lemma {:induction false} SourceExpressionsAt(ms: seq<Pg2PgColumnMapping>, i: int)
    requires SourceExpressions(ms).Some? && 0 <= i < |ms|
    ensures BuildSourceExpression(ms[i]) == Some(SourceExpressions(ms).value[i])
  {
    if i < |ms| - 1 {
      SourceExpressionsAt(ms[..|ms| - 1], i);
    }
  }

  /** buildSourceExpression throws for this mapping. */
  predicate Throws(m: Pg2PgColumnMapping)
  {
    BuildSourceExpression(m).None?
  }

  /** Once a prefix of the mappings fails, the whole list fails. */
  lemma {:induction false} SourceExpressionsPrefixFails(ms: seq<Pg2PgColumnMapping>, k: nat)
    requires k <= |ms| && SourceExpressions(ms[..k]).None?
    ensures SourceExpressions(ms).None?
    decreases |ms| - k
  {
    if k < |ms| {
      assert ms[..k + 1][..k] == ms[..k];
      SourceExpressionsPrefixFails(ms, k + 1);
    } else {
      assert ms[..k] == ms;
    }
  }

  /** A mapping that throws sinks the whole list. */
  lemma ThrowingMappingFails(ms: seq<Pg2PgColumnMapping>, i: int)
    requires 0 <= i < |ms| && Throws(ms[i])
    ensures SourceExpressions(ms).None?
  {
    assert ms[..i + 1][..i] == ms[..i];
    assert ms[..i + 1][i] == ms[i];
    assert SourceExpressions(ms[..i + 1]).None?;
    SourceExpressionsPrefixFails(ms, i + 1);
  }

  /** A failed list has a mapping that throws. */
  lemma {:induction false} FailedListHasThrower(ms: seq<Pg2PgColumnMapping>) returns (i: nat)
    requires SourceExpressions(ms).None?
    ensures i < |ms| && Throws(ms[i])
  {
    var n := |ms| - 1;
    if Throws(ms[n]) {
      i := n;
    } else {
      var init := ms[..n];
      assert SourceExpressions(init).None?;
      i := FailedListHasThrower(init);
      assert ms[i] == init[i];
    }
  }

  /** The SELECT list is missing exactly when some mapping's expression throws. */
  lemma SourceExpressionsFail(ms: seq<Pg2PgColumnMapping>)
    ensures SourceExpressions(ms).None? <==> exists i :: 0 <= i < |ms| && Throws(ms[i])
  {
    if exists i :: 0 <= i < |ms| && Throws(ms[i]) {
      var i :| 0 <= i < |ms| && Throws(ms[i]);
      ThrowingMappingFails(ms, i);
    }
    if SourceExpressions(ms).None? {
      var i := FailedListHasThrower(ms);
    }
  }

  /** Lines 48-56: the loop that fills both lists; it stops where the source throws. */
  method BuildColumnLists(ms: seq<Pg2PgColumnMapping>) returns (targets: seq<string>, exprs: Option<seq<string>>)
    ensures exprs == SourceExpressions(ms)
    ensures exprs.Some? ==> targets == TargetColumns(ms)
  {
    targets := [];
    var acc: seq<string> := [];
    var i := 0;
    while i < |ms|
      invariant 0 <= i <= |ms|
      invariant SourceExpressions(ms[..i]) == Some(acc)
      invariant targets == TargetColumns(ms[..i])
    {
      assert ms[..i + 1][..i] == ms[..i];
      targets := targets + [QuoteIdentifier(ms[i].targetColumn)];
      var e := BuildSourceExpression(ms[i]);
      if e.None? {
        exprs := None;
        assert SourceExpressions(ms[..i + 1]).None?;
        SourceExpressionsPrefixFails(ms, i + 1);
        return;
      }
      acc := acc + [e.value];
      i := i + 1;
    }
    assert ms[..|ms|] == ms;
    exprs := Some(acc);
  }

  /** One CREATE TABLE column definition: quoted name, a space, the type as printed. */
  function ColumnDefinition(m: Pg2PgColumnMapping): string
  {
    QuoteIdentifier(m.targetColumn) + " " + JavaString(m.targetDataType)
  }

  function ColumnDefinitions(ms: seq<Pg2PgColumnMapping>): (r: seq<string>)
    ensures |r| == |ms|
  {
    if ms == [] then [] else ColumnDefinitions(ms[..|ms| - 1]) + [ColumnDefinition(ms[|ms| - 1])]
  }

  lemma {:induction false} ColumnDefinitionsAt(ms: seq<Pg2PgColumnMapping>, i: int)
    requires 0 <= i < |ms|
    ensures ColumnDefinitions(ms)[i] == ColumnDefinition(ms[i])
  {
    if i < |ms| - 1 {
      ColumnDefinitionsAt(ms[..|ms| - 1], i);
    }
  }

  /** One more definition: a separator first unless it is the first one. */
  lemma JoinDefinitionStep(ms: seq<Pg2PgColumnMapping>, i: nat, s: string)
    requires i < |ms| && s == Join(ColumnDefinitions(ms[..i]), ", ")
    ensures (if i > 0 then s + ", " + ColumnDefinition(ms[i]) else ColumnDefinition(ms[i])) ==
            Join(ColumnDefinitions(ms[..i + 1]), ", ")
  {
    var parts := ColumnDefinitions(ms[..i]);
    assert ms[..i + 1][..i] == ms[..i];
    assert ColumnDefinitions(ms[..i + 1]) == parts + [ColumnDefinition(ms[i])];
    JoinSnoc(parts, ColumnDefinition(ms[i]), ", ");
  }

  /** Lines 89-94: the definitions separated by ", ". */
  method JoinColumnDefinitions(ms: seq<Pg2PgColumnMapping>) returns (s: string)
    ensures s == Join(ColumnDefinitions(ms), ", ")
  {
    s := [];
    var i := 0;
    while i < |ms|
      invariant 0 <= i <= |ms|
      invariant s == Join(ColumnDefinitions(ms[..i]), ", ")
    {
      JoinDefinitionStep(ms, i, s);
      if i > 0 {
        s := s + ", " + ColumnDefinition(ms[i]);
      } else {
        s := ColumnDefinition(ms[i]);
      }
      i := i + 1;
    }
    assert ms[..|ms|] == ms;
  }

  /** The CREATE TABLE statement the script runs through EXECUTE. */
  function CreateTableSql(step: PipelineStep, columns: string): string
  {
    "CREATE TABLE " + QuoteIdentifier(step.targetSchema) + "." + QuoteIdentifier(step.targetTable) +
    " (" + columns + ", \"job_timestamp\" TIMESTAMP)"
  }

  /** Single quotes doubled so the statement fits inside EXECUTE '...'. */
  function EscapeForExecute(sql: string): string
  {
    Replace(sql, "'", "''")
  }

  /** PostgreSQL reads the EXECUTE literal back as exactly the CREATE TABLE statement. */
  lemma ExecuteLiteralRoundTrip(sql: string)
    ensures Undouble(EscapeForExecute(sql), '\'') == sql
  {
    UndoubleOfDouble(sql, '\'');
  }

  // ------------------------------------------------------------ the script plan

  /** The filter the script applies: only an enabled filter with a clause. */
  function ActiveFilter(step: PipelineStep): (r: Option<string>)
    ensures r.Some? <==> step.filterEnabled == Some(true) && step.filterWhereClause.Some?
    ensures r.Some? ==> r == step.filterWhereClause
  {
    if step.filterEnabled == Some(true) && step.filterWhereClause.Some? then step.filterWhereClause else None
  }

  /**
   * The pieces generateMigrationSql appends. Each optional piece has a fixed
   * slot in the plan; when its condition does not hold the slot is Omitted,
   * which contributes no text.
   */
  datatype Section =
    | Omitted
    | Header
    | FilterComment(clause: string)
    | SearchPath
    | Begin
    | TargetTable
    | DisableTriggers
    | DeferConstraints
    | InsertRows
    | FilterWhere(clause: string)
    | InsertEnd
    | ResetTriggers
    | ImmediateConstraints
    | Commit
    | FilteredSourceCount(clause: string)
    | SourceCount
    | TargetCount

  /** The fifteen slots of the script, in the order they are appended. */
  function Plan(step: PipelineStep): (p: seq<Section>)
    ensures |p| == 15
  {
    var f := ActiveFilter(step);
    var trig := step.disableTriggers == Some(true);
    var cons := step.disableConstraints == Some(true);
    [ Header,
      if f.Some? then FilterComment(f.value) else Omitted,
      SearchPath,
      Begin,
      TargetTable,
      if trig then DisableTriggers else Omitted,
      if cons then DeferConstraints else Omitted,
      InsertRows,
      if f.Some? then FilterWhere(f.value) else Omitted,
      InsertEnd,
      if trig then ResetTriggers else Omitted,
      if cons then ImmediateConstraints else Omitted,
      Commit,
      if f.Some? then FilteredSourceCount(f.value) else SourceCount,
      TargetCount ]
  }

  /**
   * One BEGIN (slot 3) and one COMMIT (slot 12); the target-table block and
   * the INSERT lie between them.
   */
  lemma PlanTransaction(step: PipelineStep)
    ensures var p := Plan(step);
            p[3] == Begin && p[4] == TargetTable && p[7] == InsertRows && p[9] == InsertEnd && p[12] == Commit
    ensures var p := Plan(step);
            forall i :: 0 <= i < |p| ==> (p[i] == Begin <==> i == 3) && (p[i] == Commit <==> i == 12)
  {
  }

  /**
   * Triggers are switched off (slot 5, before the INSERT) iff they are
   * switched back on (slot 10, after it), and nowhere else.
   */
  lemma PlanTriggers(step: PipelineStep)
    ensures var p := Plan(step);
            (p[5] == DisableTriggers <==> step.disableTriggers == Some(true)) &&
            (p[10] == ResetTriggers <==> step.disableTriggers == Some(true))
    ensures var p := Plan(step);
            forall i :: 0 <= i < |p| ==> (p[i] == DisableTriggers ==> i == 5) && (p[i] == ResetTriggers ==> i == 10)
  {
  }

  /** The same pairing for SET CONSTRAINTS ALL DEFERRED (slot 6) and IMMEDIATE (slot 11). */
  lemma PlanConstraints(step: PipelineStep)
    ensures var p := Plan(step);
            (p[6] == DeferConstraints <==> step.disableConstraints == Some(true)) &&
            (p[11] == ImmediateConstraints <==> step.disableConstraints == Some(true))
    ensures var p := Plan(step);
            forall i :: 0 <= i < |p| ==> (p[i] == DeferConstraints ==> i == 6) && (p[i] == ImmediateConstraints ==> i == 11)
  {
  }

  /**
   * The filter shows up as a comment, as the INSERT's WHERE right after its
   * FROM, and in the filtered source count exactly when it is enabled and has
   * a clause; otherwise the plain source count is used.
   */
  lemma PlanFilter(step: PipelineStep, w: string)
    ensures var p := Plan(step);
            (p[1] == FilterComment(w) <==> ActiveFilter(step) == Some(w)) &&
            (p[8] == FilterWhere(w) <==> ActiveFilter(step) == Some(w)) &&
            (p[13] == FilteredSourceCount(w) <==> ActiveFilter(step) == Some(w)) &&
            (p[13] == SourceCount <==> ActiveFilter(step).None?)
    ensures var p := Plan(step);
            forall i :: 0 <= i < |p| && p[i].FilterWhere? ==> i == 8
  {
  }

  // ------------------------------------------------------------ section text

  /** What the script-building step knows besides the step itself. */
  datatype Context = Context(
    step: PipelineStep,
    timestamp: string,
    generatedAt: string,
    targetColumns: seq<string>,
    sourceExpressions: seq<string>,
    columnDefinitions: string)

  function Render(s: Section, cx: Context): string
  {
    var st := cx.step;
    var ss := JavaString(st.sourceSchema);
    var stab := JavaString(st.sourceTable);
    var ts := JavaString(st.targetSchema);
    var tt := JavaString(st.targetTable);
    var qSource := QuoteIdentifier(st.sourceSchema) + "." + QuoteIdentifier(st.sourceTable);
    var qTarget := QuoteIdentifier(st.targetSchema) + "." + QuoteIdentifier(st.targetTable);
    match s
    case Omitted => ""
    case Header =>
      "-- Migration script for " + ss + "." + stab + " to " + ts + "." + tt + "\n" +
      "-- Generated at " + cx.generatedAt + "\n" +
      "-- Job Timestamp: " + cx.timestamp + "\n"
    case FilterComment(w) => "-- FILTER ENABLED: " + w + "\n"
    case SearchPath =>
      "\n" +
      "-- 1. Set search_path to include both schemas\n" +
      "SET search_path TO " + QuoteIdentifier(st.targetSchema) + ", " + QuoteIdentifier(st.sourceSchema) +
      ", public;\n\n"
    case Begin => "-- 2. Begin transaction\n" + "BEGIN;\n\n"
    case TargetTable =>
      "-- 3. Handle target table (create if not exists, backup if exists)\n" +
      "DO $$\n" + "DECLARE\n" + "    table_exists boolean;\n" + "    backup_table_name text;\n" + "BEGIN\n" +
      "    SELECT EXISTS (\n" + "        SELECT FROM information_schema.tables\n" +
      "        WHERE table_schema = '" + ts + "'\n" +
      "        AND table_name = '" + tt + "'\n" +
      "    ) INTO table_exists;\n\n" +
      "    IF table_exists THEN\n" +
      "        backup_table_name := '" + tt + "_" + cx.timestamp + "';\n" +
      "        EXECUTE format('CREATE TABLE %I.%I AS SELECT * FROM %I.%I',\n" +
      "            '" + ts + "', backup_table_name,\n" +
      "            '" + ts + "', '" + tt + "');\n" +
      "        RAISE NOTICE 'Backed up existing table to %', backup_table_name;\n" +
      "    ELSE\n" +
      "        -- Create target table\n" +
      "        EXECUTE '" + EscapeForExecute(CreateTableSql(st, cx.columnDefinitions)) + "';\n" +
      "        RAISE NOTICE 'Created target table';\n" +
      "    END IF;\n\n" +
      "    -- Ensure job_timestamp column exists\n" +
      "    IF NOT EXISTS (\n" + "        SELECT FROM information_schema.columns\n" +
      "        WHERE table_schema = '" + ts + "'\n" +
      "        AND table_name = '" + tt + "'\n" +
      "        AND column_name = 'job_timestamp'\n" +
      "    ) THEN\n" +
      "        EXECUTE format('ALTER TABLE %I.%I ADD COLUMN %I TIMESTAMP',\n" +
      "            '" + ts + "', '" + tt + "', 'job_timestamp');\n" +
      "        RAISE NOTICE 'Added job_timestamp column';\n" +
      "    END IF;\n" +
      "END $$;\n\n"
    case DisableTriggers => "-- 4. Disable triggers\n" + "SET session_replication_role = 'replica';\n\n"
    case DeferConstraints => "-- 5. Disable constraints\n" + "SET CONSTRAINTS ALL DEFERRED;\n\n"
    case InsertRows =>
      "-- 6. Insert data with job timestamp\n" +
      "DO $$\n" + "DECLARE\n" +
      "    migration_timestamp TIMESTAMP := CURRENT_TIMESTAMP;\n" +
      "    insertion_count INTEGER;\n" + "BEGIN\n" +
      "    CREATE TEMP TABLE migration_timestamp_ref(ts TIMESTAMP);\n" +
      "    INSERT INTO migration_timestamp_ref VALUES (migration_timestamp);\n\n" +
      "    INSERT INTO " + qTarget + " (" + InsertList(cx.targetColumns) + ")\n" +
      "    SELECT " + SelectList(cx.sourceExpressions) + "\n" +
      "    FROM " + qSource + "\n"
    case FilterWhere(w) => "    WHERE " + w + "\n"
    case InsertEnd =>
      "    ;\n\n" +
      "    GET DIAGNOSTICS insertion_count = ROW_COUNT;\n" +
      "    RAISE NOTICE 'Inserted % rows', insertion_count;\n" +
      "END $$;\n\n"
    case ResetTriggers => "-- 7. Re-enable triggers\n" + "RESET session_replication_role;\n\n"
    case ImmediateConstraints => "-- 8. Re-enable constraints\n" + "SET CONSTRAINTS ALL IMMEDIATE;\n\n"
    case Commit => "-- 9. Commit transaction\n" + "COMMIT;\n\n"
    case FilteredSourceCount(w) =>
      "SELECT (SELECT COUNT(*) FROM " + qSource + " WHERE " + w + ") AS source_count;\n"
    case SourceCount => "SELECT COUNT(*) AS source_count FROM " + qSource + ";\n"
    case TargetCount => "SELECT COUNT(*) AS target_count FROM " + qTarget + ";\n"
  }

  /** The INSERT column list items: the target columns, then job_timestamp. */
  function InsertItems(targets: seq<string>): seq<string>
  {
    targets + ["\"job_timestamp\""]
  }

  /** The SELECT list items: the source expressions, then the block's timestamp variable. */
  function SelectItems(exprs: seq<string>): seq<string>
  {
    exprs + ["migration_timestamp"]
  }

  function InsertList(targets: seq<string>): string
  {
    Join(targets, ", ") + ", " + "\"job_timestamp\""
  }

  function SelectList(exprs: seq<string>): string
  {
    Join(exprs, ", ") + ", migration_timestamp"
  }

  /** INSERT and SELECT name the same number of items, matched by position. */
  lemma ColumnListsAgree(ms: seq<Pg2PgColumnMapping>, i: int)
    requires SourceExpressions(ms).Some? && 0 <= i < |ms|
    ensures var ins := InsertItems(TargetColumns(ms));
            var sel := SelectItems(SourceExpressions(ms).value);
            |ins| == |sel| == |ms| + 1 &&
            ins[|ms|] == "\"job_timestamp\"" && sel[|ms|] == "migration_timestamp" &&
            ins[i] == QuoteIdentifier(ms[i].targetColumn) && Some(sel[i]) == BuildSourceExpression(ms[i])
  {
    TargetColumnsAt(ms, i);
    SourceExpressionsAt(ms, i);
  }

  function RenderAll(p: seq<Section>, cx: Context): string
  {
    if p == [] then [] else Render(p[0], cx) + RenderAll(p[1..], cx)
  }

  /**
   * The whole script of generateMigrationSql. A step without a column list,
   * or with a mapping whose expression throws, produces no script.
   */
  function MigrationScript(step: PipelineStep, timestamp: string, generatedAt: string): (r: Option<string>)
    ensures r.Some? <==> step.columnMappings.Some? && SourceExpressions(step.columnMappings.value).Some?
  {
    if step.columnMappings.None? then None
    else
      var ms := step.columnMappings.value;
      var exprs := SourceExpressions(ms);
      if exprs.None? then None
      else
        var cx := Context(step, timestamp, generatedAt, TargetColumns(ms), exprs.value,
                          Join(ColumnDefinitions(ms), ", "));
        Some(RenderAll(Plan(step), cx))
  }

  /** generateMigrationSql: the loops build the lists, the sections are appended in plan order. */
  method GenerateMigrationSql(step: PipelineStep, timestamp: string, generatedAt: string) returns (r: Option<string>)
    ensures r == MigrationScript(step, timestamp, generatedAt)
  {
    if step.columnMappings.None? {
      return None;
    }
    var ms := step.columnMappings.value;
    var targets, exprs := BuildColumnLists(ms);
    if exprs.None? {
      return None;
    }
    var defs := JoinColumnDefinitions(ms);
    var cx := Context(step, timestamp, generatedAt, targets, exprs.value, defs);
    r := Some(RenderAll(Plan(step), cx));
  }
}
