// SchemaMigrationService: the DDL builders for indexes, constraints,
// sequences and views, the Oracle-to-PostgreSQL rewrites applied to view
// text and check conditions, the issue checkers, and the loops that group
// catalogue rows into index and constraint descriptions. The catalogue
// queries themselves are replaced by the rows they return.

module SchemaMigrationService {
  import opened JavaStr
  import opened QuotedNames
  import opened Lists

  // ---------------------------------------------------------------- records

  /** IndexInfo (the unused expressions list is not modelled). */
  datatype IndexInfo = IndexInfo(
    indexName: Option<string>,
    tableName: Option<string>,
    tableSchema: string,
    indexType: Option<string>,
    unique: bool,
    columns: seq<string>,
    tablespace: Option<string>,
    status: Option<string>)

  /** ConstraintInfo (updateRule is never set and is not modelled). */
  datatype ConstraintInfo = ConstraintInfo(
    constraintName: Option<string>,
    tableName: Option<string>,
    tableSchema: string,
    constraintType: Option<string>,
    columns: seq<string>,
    referencedTable: Option<string>,
    referencedSchema: Option<string>,
    referencedColumns: seq<string>,
    checkCondition: Option<string>,
    deleteRule: Option<string>,
    status: Option<string>)

  /** SequenceInfo; Oracle NUMBER values are integers here. */
  datatype SequenceInfo = SequenceInfo(
    sequenceName: Option<string>,
    schema: Option<string>,
    minValue: Option<int>,
    maxValue: Option<int>,
    incrementBy: Option<int>,
    startWith: Option<int>,
    cycle: Option<bool>,
    order: Option<bool>,
    cacheSize: Option<int>,
    lastNumber: Option<int>)

  datatype ViewInfo = ViewInfo(
    viewName: Option<string>,
    schema: Option<string>,
    viewDefinition: Option<string>,
    readOnly: Option<bool>,
    checkOption: Option<bool>,
    status: Option<string>)

  // ---------------------------------------------------------------- column lists

  /** Every column quoted, in order. */
  function QuotedColumns(cols: seq<string>): (r: seq<string>)
    ensures |r| == |cols|
  {
    if cols == [] then [] else QuotedColumns(cols[..|cols| - 1]) + [QuoteIdentifier(Some(cols[|cols| - 1]))]
  }

  /** The quoted columns joined by ", ", as the DDL lists them. */
  function ColumnList(cols: seq<string>): string
  {
    Join(QuotedColumns(cols), ", ")
  }

  /**
   * Reads a list written as `"b1", "b2", …` back into its bodies; the
   * inverse of ColumnList on the unquoted names.
   */
  function ParseColumnList(s: string): (r: Option<seq<string>>)
    decreases |s|
  {
    if s == [] then Some([])
    else if s[0] != '"' then None
    else match IndexOfChar(s[1..], '"')
      case None => None
      case Some(k) =>
        var name := s[1..k + 1];
        var rest := s[k + 2..];
        if rest == [] then Some([name])
        else if |rest| > 2 && rest[..2] == ", " then
          match ParseColumnList(rest[2..])
            case None => None
            case Some(names) => Some([name] + names)
        else None
  }

  /** The names without their double quotes, in order. */
  function Unquote(cols: seq<string>): (r: seq<string>)
    ensures |r| == |cols|
  {
    if cols == [] then [] else [Unquoted(cols[0])] + Unquote(cols[1..])
  }

  lemma {:induction false} QuotedColumnsAt(cols: seq<string>, i: nat)
    requires i < |cols|
    ensures QuotedColumns(cols)[i] == QuoteIdentifier(Some(cols[i]))
    decreases |cols|
  {
    if i < |cols| - 1 {
      QuotedColumnsAt(cols[..|cols| - 1], i);
    }
  }

  lemma QuotedColumnsTail(cols: seq<string>)
    requires cols != []
    ensures QuotedColumns(cols[1..]) == QuotedColumns(cols)[1..]
  {
    forall i | 0 <= i < |cols| - 1
      ensures QuotedColumns(cols[1..])[i] == QuotedColumns(cols)[1..][i]
    {
      QuotedColumnsAt(cols[1..], i);
      QuotedColumnsAt(cols, i + 1);
    }
  }

  /** A quoted name is '"', the name without quotes, '"'. */
  lemma QuotedForm(c: string)
    ensures QuoteIdentifier(Some(c)) == "\"" + Unquoted(c) + "\""
  {
    if c == [] {
      assert Unquoted(c) == [];
    }
  }

  /** A quoted name followed by rest is read as the name, then rest. */
  lemma ParseQuotedHead(u: string, rest: string)
    requires '"' !in u
    ensures var s := "\"" + u + "\"" + rest;
            s != [] && s[0] == '"' && IndexOfChar(s[1..], '"') == Some(|u|) &&
            s[1..|u| + 1] == u && s[|u| + 2..] == rest
  {
    var s := "\"" + u + "\"" + rest;
    var t := s[1..];
    assert t == u + "\"" + rest;
    assert t[|u|] == '"';
    assert t[..|u|] == u;
  }

  /** The list of two or more columns is the first quoted name, ", ", and the list of the rest. */
  lemma ColumnListCons(cols: seq<string>)
    requires |cols| >= 2
    ensures ColumnList(cols) == QuoteIdentifier(Some(cols[0])) + ", " + ColumnList(cols[1..])
    ensures |ColumnList(cols[1..])| >= 2
  {
    var qs := QuotedColumns(cols);
    QuotedColumnsTail(cols);
    QuotedColumnsAt(cols, 0);
    QuotedColumnsAt(cols, 1);
    QuotedForm(cols[1]);
    var qt := QuotedColumns(cols[1..]);
    if |qt| == 1 {
      assert Join(qt, ", ") == qt[0];
    } else {
      assert Join(qt, ", ") == qt[0] + ", " + Join(qt[1..], ", ");
    }
  }

  /** Reading one quoted name and the separator, then the rest of the list. */
  lemma ParseColumnListCons(u: string, tail: string)
    requires '"' !in u && |tail| >= 1
    ensures ParseColumnList("\"" + u + "\"" + ", " + tail) ==
            match ParseColumnList(tail)
              case None => None
              case Some(names) => Some([u] + names)
  {
    var rest := ", " + tail;
    ParseQuotedHead(u, rest);
    assert "\"" + u + "\"" + ", " + tail == "\"" + u + "\"" + rest;
    assert rest[..2] == ", " && rest[2..] == tail;
  }

  /** The column list of a DDL statement can be read back: the bodies of the names, in order. */
  lemma {:induction false} ColumnListRoundTrip(cols: seq<string>)
    ensures ParseColumnList(ColumnList(cols)) == Some(Unquote(cols))
    decreases |cols|
  {
    if |cols| == 1 {
      QuotedColumnsAt(cols, 0);
      QuotedForm(cols[0]);
      assert ColumnList(cols) == "\"" + Unquoted(cols[0]) + "\"" + [];
      ParseQuotedHead(Unquoted(cols[0]), []);
      assert Unquote(cols) == [Unquoted(cols[0])];
    } else if |cols| >= 2 {
      ColumnListCons(cols);
      ColumnListRoundTrip(cols[1..]);
      QuotedForm(cols[0]);
      ParseColumnListCons(Unquoted(cols[0]), ColumnList(cols[1..]));
      assert Unquote(cols) == [Unquoted(cols[0])] + Unquote(cols[1..]);
    }
  }

  // ---------------------------------------------------------------- index DDL

  predicate IsBitmap(indexType: Option<string>)
  {
    indexType.Some? && EqualsIgnoreCase(indexType.value, "BITMAP")
  }

  const BITMAP_NOTE := " WARNING: Bitmap index converted to B-tree (PostgreSQL doesn't support bitmap)\n"

  /** The comment put before the DDL of a BITMAP index. */
  function IndexWarning(indexType: Option<string>): (r: string)
  {
    if IsBitmap(indexType) then "--" + BITMAP_NOTE else ""
  }

  function IndexKeyword(unique: bool): string
  {
    if unique then "CREATE UNIQUE INDEX " else "CREATE INDEX "
  }

  /** The index, its table and the column list, after the CREATE [UNIQUE] INDEX keywords. */
  function IndexTarget(index: IndexInfo, targetSchema: string): string
  {
    QuoteIdentifier(index.indexName) + " ON " + targetSchema + "." +
    QuoteIdentifier(index.tableName) + " (" + ColumnList(index.columns) + ");"
  }

  /** The CREATE [UNIQUE] INDEX statement over the quoted columns. */
  function IndexStatement(index: IndexInfo, targetSchema: string): string
  {
    IndexKeyword(index.unique) + IndexTarget(index, targetSchema)
  }

  /** The DDL of one index. */
  function IndexDdl(index: IndexInfo, targetSchema: string): string
  {
    IndexWarning(index.indexType) + IndexStatement(index, targetSchema)
  }

  /** generateIndexDDL: the statement around the column list built by JoinQuoted. */
  method GenerateIndexDdl(index: IndexInfo, targetSchema: string) returns (ddl: string)
    ensures ddl == IndexDdl(index, targetSchema)
  {
    var list := JoinQuoted(index.columns);
    ddl := IndexWarning(index.indexType) + (IndexKeyword(index.unique) +
           (QuoteIdentifier(index.indexName) + " ON " + targetSchema + "." +
            QuoteIdentifier(index.tableName) + " (" + list + ");"));
  }

  /** The column loop of generateIndexDDL: ", " before every column but the first. */
  method JoinQuoted(cols: seq<string>) returns (list: string)
    ensures list == ColumnList(cols)
  {
    list := "";
    var i := 0;
    while i < |cols|
      invariant 0 <= i <= |cols|
      invariant list == ColumnList(cols[..i])
    {
      JoinSnoc(QuotedColumns(cols[..i]), QuoteIdentifier(Some(cols[i])), ", ");
      assert cols[..i + 1][..i] == cols[..i];
      if i > 0 {
        list := list + ", ";
      }
      list := list + QuoteIdentifier(Some(cols[i]));
      i := i + 1;
    }
    assert cols[..i] == cols;
  }

  /** The warning comment comes first exactly for BITMAP indexes, in any letter case. */
  lemma IndexWarningIffBitmap(index: IndexInfo, targetSchema: string)
    ensures StartsWith(IndexDdl(index, targetSchema), "--") <==> IsBitmap(index.indexType)
  {
    WarningFirst(index.indexType, index.unique, IndexTarget(index, targetSchema));
  }

  lemma WarningFirst(indexType: Option<string>, unique: bool, t: string)
    ensures StartsWith(IndexWarning(indexType) + (IndexKeyword(unique) + t), "--") <==> IsBitmap(indexType)
  {
    var w := IndexWarning(indexType);
    var st := IndexKeyword(unique) + t;
    var d := w + st;
    if IsBitmap(indexType) {
      assert d == "--" + (BITMAP_NOTE + st);
      PrefixOfAppend("--", BITMAP_NOTE + st, 2);
    } else {
      assert d == st;
      assert d[0] == IndexKeyword(unique)[0] == 'C';
      assert "--"[0] == '-';
    }
  }

  /** The statement is CREATE UNIQUE INDEX exactly for unique indexes. */
  lemma IndexUniqueIff(index: IndexInfo, targetSchema: string)
    ensures StartsWith(IndexStatement(index, targetSchema), "CREATE UNIQUE INDEX ") <==> index.unique
  {
    KeywordSaysUnique(index.unique, IndexTarget(index, targetSchema));
  }

  lemma KeywordSaysUnique(unique: bool, t: string)
    ensures StartsWith(IndexKeyword(unique) + t, "CREATE UNIQUE INDEX ") <==> unique
  {
    var k := IndexKeyword(unique);
    if unique {
      PrefixOfAppend(k, t, 20);
    } else {
      PrefixOfAppend(k, t, 13);
      assert (k + t)[..13][7] == 'I';
    }
  }

  /** The DDL ends with the parenthesised column list and ';'. */
  lemma IndexColumnsLast(index: IndexInfo, targetSchema: string)
    ensures EndsWith(IndexDdl(index, targetSchema), " (" + ColumnList(index.columns) + ");")
  {
    var n := QuoteIdentifier(index.indexName);
    var tb := QuoteIdentifier(index.tableName);
    var cl := ColumnList(index.columns);
    var w := IndexWarning(index.indexType);
    var k := IndexKeyword(index.unique);
    assert IndexTarget(index, targetSchema) == n + " ON " + targetSchema + "." + tb + " (" + cl + ");";
    ListLast(w, k, n, targetSchema, tb, cl);
  }

  lemma ListLast(w: string, k: string, n: string, target: string, tb: string, cl: string)
    ensures EndsWith(w + (k + (n + " ON " + target + "." + tb + " (" + cl + ");")), " (" + cl + ");")
  {
    var tail := " (" + cl + ");";
    var pre := w + k + n + " ON " + target + "." + tb;
    assert w + (k + (n + " ON " + target + "." + tb + " (" + cl + ");")) == pre + tail;
    assert (pre + tail)[|pre + tail| - |tail|..] == tail;
  }

  // ---------------------------------------------------------------- rewrites

  /** The number of regex whitespace characters (\s) at the start of s. */
  function LeadingSpaces(s: string): (n: nat)
    ensures n <= |s|
    ensures forall i :: 0 <= i < n ==> IsRegexSpace(s[i])
    ensures n < |s| ==> !IsRegexSpace(s[n])
  {
    if s != [] && IsRegexSpace(s[0]) then 1 + LeadingSpaces(s[1..]) else 0
  }

  /**
   * The length of a match of `(?i)w` — or of `(?i)w\s*\(` when
   * parenthesised — at the start of s. Case folding in a Java regex without
   * UNICODE_CASE is ASCII only, as Upper is; w is written in upper case.
   */
  function MatchLength(s: string, w: string, parenthesised: bool): (r: Option<nat>)
    ensures r.Some? ==> |w| <= r.value <= |s|
  {
    if |s| < |w| || Upper(s[..|w|]) != w then None
    else if !parenthesised then Some(|w|)
    else
      var k := LeadingSpaces(s[|w|..]);
      if |w| + k < |s| && s[|w| + k] == '(' then Some(|w| + k + 1) else None
  }

  /** String.replaceAll with the pattern above: leftmost matches, without overlap, in one pass. */
  function ReplaceAll(s: string, w: string, parenthesised: bool, repl: string): string
    requires w != []
    decreases |s|
  {
    if s == [] then []
    else match MatchLength(s, w, parenthesised)
      case Some(n) => repl + ReplaceAll(s[n..], w, parenthesised, repl)
      case None => [s[0]] + ReplaceAll(s[1..], w, parenthesised, repl)
  }

  /** No position of s starts a match. */
  predicate NoMatch(s: string, w: string, parenthesised: bool)
  {
    forall i :: 0 <= i < |s| ==> MatchLength(s[i..], w, parenthesised).None?
  }

  /** Text without a match passes through unchanged. */
  lemma {:induction false} ReplaceAllNoMatch(s: string, w: string, parenthesised: bool, repl: string)
    requires w != [] && NoMatch(s, w, parenthesised)
    ensures ReplaceAll(s, w, parenthesised, repl) == s
    decreases |s|
  {
    if s != [] {
      assert MatchLength(s[0..], w, parenthesised).None?;
      assert s[0..] == s;
      forall i | 0 <= i < |s[1..]|
        ensures MatchLength(s[1..][i..], w, parenthesised).None?
      {
        assert s[1..][i..] == s[i + 1..];
      }
      ReplaceAllNoMatch(s[1..], w, parenthesised, repl);
    }
  }

  /**
   * A keyword in any letter case, then any whitespace, then '(' is one
   * match: it is replaced as a whole and the text after it is rewritten on.
   */
  lemma CallRewritten(w: string, kw: string, spaces: string, rest: string, repl: string)
    requires w != [] && Upper(kw) == w
    requires forall i :: 0 <= i < |spaces| ==> IsRegexSpace(spaces[i])
    ensures ReplaceAll(kw + spaces + "(" + rest, w, true, repl) == repl + ReplaceAll(rest, w, true, repl)
  {
    var s := kw + spaces + "(" + rest;
    assert s[..|w|] == kw;
    var t := s[|w|..];
    assert t == spaces + "(" + rest;
    SpacesThenParen(spaces, rest);
    assert s[|w| + |spaces|] == '(';
    assert MatchLength(s, w, true) == Some(|w| + |spaces| + 1);
    assert s[|w| + |spaces| + 1..] == rest;
  }

  lemma {:induction false} SpacesThenParen(spaces: string, rest: string)
    requires forall i :: 0 <= i < |spaces| ==> IsRegexSpace(spaces[i])
    ensures LeadingSpaces(spaces + "(" + rest) == |spaces|
    decreases |spaces|
  {
    if spaces == [] {
      assert spaces + "(" + rest == "(" + rest;
    } else {
      assert (spaces + "(" + rest)[1..] == spaces[1..] + "(" + rest;
      SpacesThenParen(spaces[1..], rest);
    }
  }

  /** The rewrites of convertViewSQL, in the order they are applied. */
  function ViewRewrites(sql: string): string
  {
    var s1 := ReplaceAll(sql, "DECODE", true, "CASE WHEN ");
    var s2 := ReplaceAll(s1, "NVL", true, "COALESCE(");
    var s3 := ReplaceAll(s2, "TO_CHAR", true, "TO_CHAR(");
    var s4 := ReplaceAll(s3, "TO_DATE", true, "TO_TIMESTAMP(");
    var s5 := ReplaceAll(s4, "ROWNUM", false, "ROW_NUMBER() OVER()");
    var s6 := ReplaceAll(s5, "SYSDATE", false, "CURRENT_TIMESTAMP");
    var s7 := ReplaceAll(s6, "SYSTIMESTAMP", false, "CURRENT_TIMESTAMP");
    RemoveDual(s7)
  }

  /** The last rewrite: every "DUAL", in any letter case, is deleted. */
  function RemoveDual(s: string): string
  {
    ReplaceAll(s, "DUAL", false, "")
  }

  /** convertViewSQL: null gives the empty text. */
  function ConvertViewSql(oracleSql: Option<string>): (r: string)
    ensures oracleSql.None? ==> r == ""
  {
    if oracleSql.None? then "" else ViewRewrites(oracleSql.value)
  }

  /** None of the Oracle constructs convertViewSQL rewrites occurs in s. */
  predicate PlainViewSql(s: string)
  {
    NoMatch(s, "DECODE", true) && NoMatch(s, "NVL", true) && NoMatch(s, "TO_CHAR", true) &&
    NoMatch(s, "TO_DATE", true) && NoMatch(s, "ROWNUM", false) && NoMatch(s, "SYSDATE", false) &&
    NoMatch(s, "SYSTIMESTAMP", false) && NoMatch(s, "DUAL", false)
  }

  /** View text without Oracle constructs is kept as it is. */
  lemma PlainViewSqlKept(s: string)
    requires PlainViewSql(s)
    ensures ConvertViewSql(Some(s)) == s
  {
    ReplaceAllNoMatch(s, "DECODE", true, "CASE WHEN ");
    ReplaceAllNoMatch(s, "NVL", true, "COALESCE(");
    ReplaceAllNoMatch(s, "TO_CHAR", true, "TO_CHAR(");
    ReplaceAllNoMatch(s, "TO_DATE", true, "TO_TIMESTAMP(");
    ReplaceAllNoMatch(s, "ROWNUM", false, "ROW_NUMBER() OVER()");
    ReplaceAllNoMatch(s, "SYSDATE", false, "CURRENT_TIMESTAMP");
    ReplaceAllNoMatch(s, "SYSTIMESTAMP", false, "CURRENT_TIMESTAMP");
    ReplaceAllNoMatch(s, "DUAL", false, "");
  }

  /**
   * "Dual" in any letter case is deleted where it stands, inside a longer
   * word too, when no match starts in the text before it.
   */
  lemma DualDeletedInsideWords(a: string, d: string, b: string)
    requires Upper(d) == "DUAL"
    requires forall i :: 0 <= i < |a| ==> MatchLength(a[i..] + (d + b), "DUAL", false).None?
    ensures RemoveDual(a + (d + b)) == a + RemoveDual(b)
  {
    DualPrefixKept(a, d + b);
    DualAtStart(d, b);
  }

  lemma DualAtStart(d: string, b: string)
    requires Upper(d) == "DUAL"
    ensures RemoveDual(d + b) == RemoveDual(b)
  {
    var s := d + b;
    assert s[..4] == d;
    assert s[4..] == b;
  }

  /** A prefix in which no match can start is copied. */
  lemma {:induction false} DualPrefixKept(a: string, t: string)
    requires forall i :: 0 <= i < |a| ==> MatchLength(a[i..] + t, "DUAL", false).None?
    ensures RemoveDual(a + t) == a + RemoveDual(t)
    decreases |a|
  {
    if a != [] {
      assert (a + t)[0..] == a[0..] + t;
      assert a[0..] == a;
      assert (a + t)[1..] == a[1..] + t;
      forall i | 0 <= i < |a[1..]|
        ensures MatchLength(a[1..][i..] + t, "DUAL", false).None?
      {
        assert a[1..][i..] == a[i + 1..];
      }
      DualPrefixKept(a[1..], t);
    }
  }

  /**
   * The deletion is one pass: removing the inner "DUAL" of "DUDUALAL"
   * leaves a new "DUAL" that stays in the converted text.
   */
  lemma DualRemovalIsOnePass(s: string)
    requires s == "DUDUALAL"
    ensures RemoveDual(s) == "DUAL"
  {
    assert Upper("DUDU") != "DUAL";
    assert Upper("UDUA") != "DUAL";
    assert s[..4] == "DUDU" && s[1..][..4] == "UDUA" && s[2..][..4] == "DUAL";
    assert s[2..][4..] == "AL";
    assert RemoveDual("AL") == "AL" by {
      assert RemoveDual("L") == "L";
    }
    assert RemoveDual(s[2..]) == "AL";
    assert RemoveDual(s[1..]) == "UAL";
  }

  /** convertCheckCondition: NVL( becomes COALESCE( and DECODE( becomes CASE WHEN; null gives "". */
  function ConvertCheckCondition(condition: Option<string>): (r: string)
    ensures condition.None? ==> r == ""
  {
    if condition.None? then ""
    else ReplaceAll(ReplaceAll(condition.value, "NVL", true, "COALESCE("), "DECODE", true, "CASE WHEN ")
  }

  /** A condition without NVL( or DECODE( is kept as it is. */
  lemma PlainCheckConditionKept(c: string)
    requires NoMatch(c, "NVL", true) && NoMatch(c, "DECODE", true)
    ensures ConvertCheckCondition(Some(c)) == c
  {
    ReplaceAllNoMatch(c, "NVL", true, "COALESCE(");
    ReplaceAllNoMatch(c, "DECODE", true, "CASE WHEN ");
  }

  /** convertDeleteRule: CASCADE and SET NULL are kept, every other rule becomes RESTRICT. */
  function ConvertDeleteRule(rule: Option<string>): (r: Option<string>)
    ensures r.None? <==> rule.None?
    ensures r.Some? ==> r.value in {"CASCADE", "SET NULL", "RESTRICT"}
    ensures r.Some? ==> (r.value == "CASCADE" <==> Upper(rule.value) == "CASCADE")
    ensures r.Some? ==> (r.value == "SET NULL" <==> Upper(rule.value) == "SET NULL")
  {
    if rule.None? then None
    else
      var u := Upper(rule.value);
      if u == "CASCADE" then Some("CASCADE")
      else if u == "SET NULL" then Some("SET NULL")
      else Some("RESTRICT")
  }

  // ---------------------------------------------------------------- constraint DDL

  /** "ALTER TABLE <schema>.<table> ADD CONSTRAINT <name>". */
  function ConstraintPrefix(c: ConstraintInfo, targetSchema: string): string
  {
    "ALTER TABLE " + targetSchema + "." + QuoteIdentifier(c.tableName) + " ADD CONSTRAINT " + QuoteIdentifier(c.constraintName)
  }

  /** " ON DELETE <rule>" when a delete rule is known. */
  function DeleteClause(rule: Option<string>): (r: string)
    ensures rule.None? <==> r == ""
  {
    match ConvertDeleteRule(rule)
      case None => ""
      case Some(action) => " ON DELETE " + action
  }

  /** A foreign key's DDL up to the end of the referenced column list. */
  function ForeignKeyHead(c: ConstraintInfo, targetSchema: string): string
  {
    ConstraintPrefix(c, targetSchema) + " FOREIGN KEY (" + ColumnList(c.columns) + ") REFERENCES " +
    targetSchema + "." + QuoteIdentifier(c.referencedTable) + " (" + ColumnList(c.referencedColumns)
  }

  /** The foreign key's DDL, with the delete rule after the referenced columns. */
  function ForeignKeyDdl(c: ConstraintInfo, targetSchema: string): string
  {
    ForeignKeyHead(c, targetSchema) + (")" + DeleteClause(c.deleteRule) + ";")
  }

  /**
   * generateConstraintDDL. A null constraint type makes the switch throw
   * (None); a type other than the four known ones gives the empty DDL.
   */
  function ConstraintDdl(c: ConstraintInfo, targetSchema: string): (r: Option<string>)
    ensures r.None? <==> c.constraintType.None?
    ensures c.constraintType.Some? && c.constraintType.value !in {"PRIMARY KEY", "FOREIGN KEY", "UNIQUE", "CHECK"} ==>
              r == Some("")
  {
    if c.constraintType.None? then None
    else
      var pre := ConstraintPrefix(c, targetSchema);
      match c.constraintType.value
        case "PRIMARY KEY" => Some(pre + " PRIMARY KEY (" + ColumnList(c.columns) + ");")
        case "FOREIGN KEY" => Some(ForeignKeyDdl(c, targetSchema))
        case "UNIQUE" => Some(pre + " UNIQUE (" + ColumnList(c.columns) + ");")
        case "CHECK" => Some(pre + " CHECK (" + ConvertCheckCondition(c.checkCondition) + ");")
        case _ => Some("")
  }

  /**
   * A foreign key's DDL ends in " ON DELETE <rule>;" when the constraint
   * has a delete rule, and in ");" exactly when it has none.
   */
  lemma ForeignKeyDeleteRule(c: ConstraintInfo, targetSchema: string)
    requires c.constraintType == Some("FOREIGN KEY")
    ensures ConstraintDdl(c, targetSchema).Some?
    ensures c.deleteRule.Some? ==>
              EndsWith(ConstraintDdl(c, targetSchema).value, " ON DELETE " + ConvertDeleteRule(c.deleteRule).value + ";")
    ensures EndsWith(ConstraintDdl(c, targetSchema).value, ");") <==> c.deleteRule.None?
  {
    assert ConstraintDdl(c, targetSchema) == Some(ForeignKeyDdl(c, targetSchema));
    DeleteClauseLast(ForeignKeyHead(c, targetSchema), c.deleteRule);
  }

  lemma DeleteClauseLast(head: string, rule: Option<string>)
    ensures var ddl := head + (")" + DeleteClause(rule) + ";");
            (rule.Some? ==> EndsWith(ddl, " ON DELETE " + ConvertDeleteRule(rule).value + ";")) &&
            (EndsWith(ddl, ");") <==> rule.None?)
  {
    var ddl := head + (")" + DeleteClause(rule) + ";");
    if rule.None? {
      assert ddl == head + ");";
      SuffixOfAppend(head, ");");
    } else {
      var action := ConvertDeleteRule(rule).value;
      var tail := " ON DELETE " + action + ";";
      assert ddl == head + ")" + tail;
      SuffixOfAppend(head + ")", tail);
      assert ddl[|ddl| - 2] == action[|action| - 1] != ')';
    }
  }

  // ---------------------------------------------------------------- sequence DDL

  /** " <keyword> <value>" for a known value (BigDecimal.toPlainString of an integer). */
  function NumberClause(keyword: string, v: Option<int>): (r: string)
    ensures v.None? <==> r == ""
  {
    if v.None? then "" else " " + keyword + " " + IntToString(v.value)
  }

  function CycleClause(cycle: Option<bool>): (r: string)
    ensures cycle.None? <==> r == ""
  {
    match cycle
      case None => ""
      case Some(b) => if b then " CYCLE" else " NO CYCLE"
  }

  /**
   * The cache clause as written: the cache size goes through longValue(),
   * which wraps instead of throwing, so the ArithmeticException fallback is
   * never taken and a size beyond the long range can come out as a small
   * cache.
   */
  function CacheClauseAsWritten(cache: Option<int>): string
  {
    if cache.None? then " NO CACHE"
    else
      var v := LongValue(cache.value);
      if 1 < v <= INT_MAX then " CACHE " + IntToString(v) else " NO CACHE"
  }

  /** The cache clause as intended: CACHE n for a size 1 < n <= Integer.MAX_VALUE, NO CACHE otherwise. */
  function CacheClause(cache: Option<int>): string
  {
    if cache.Some? && 1 < cache.value <= INT_MAX then " CACHE " + IntToString(cache.value) else " NO CACHE"
  }

  /** The emitted CACHE n is exactly the source's cache size, and only when it is in range. */
  lemma CacheClauseExact(cache: Option<int>, n: int)
    ensures CacheClause(cache) == " CACHE " + IntToString(n) <==> cache == Some(n) && 1 < n <= INT_MAX
  {
    NoCacheDiffers(IntToString(n));
    if CacheClause(cache) == " CACHE " + IntToString(n) && cache.Some? && 1 < cache.value <= INT_MAX {
      assert IntToString(cache.value) == (" CACHE " + IntToString(n))[7..];
      SignedDigitsOfIntToString(cache.value);
      SignedDigitsOfIntToString(n);
    }
  }

  lemma NoCacheDiffers(x: string)
    ensures " NO CACHE" != " CACHE " + x
  {
    assert (" CACHE " + x)[1] == 'C';
    assert " NO CACHE"[1] == 'N';
  }

  /** Within the long range the source's clause and the intended one agree. */
  lemma CacheInLongRange(cache: Option<int>)
    requires cache.Some? ==> LONG_MIN <= cache.value <= LONG_MAX
    ensures CacheClauseAsWritten(cache) == CacheClause(cache)
  {
  }

  /** 2^64 + 5 passes the range test as 5 in the source; the intended clause says NO CACHE. */
  lemma CacheWrapAsWritten(v: int)
    requires v == 0x1_0000_0000_0000_0005
    ensures CacheClauseAsWritten(Some(v)) == " CACHE 5"
    ensures CacheClause(Some(v)) == " NO CACHE"
  {
    assert LongValue(v) == 5;
    assert IntToString(5) == "5";
  }

  /** The options of CREATE SEQUENCE, in the order the source appends them. */
  function SequenceOptions(sq: SequenceInfo): string
  {
    NumberClause("START", sq.startWith) + NumberClause("INCREMENT", sq.incrementBy) +
    NumberClause("MINVALUE", sq.minValue) + NumberClause("MAXVALUE", sq.maxValue) + CycleClause(sq.cycle)
  }

  /** generateSequenceDDL. */
  function SequenceDdl(sq: SequenceInfo, targetSchema: string): (r: string)
    ensures StartsWith(r, "CREATE SEQUENCE " + targetSchema + "." + QuoteIdentifier(sq.sequenceName))
  {
    "CREATE SEQUENCE " + targetSchema + "." + QuoteIdentifier(sq.sequenceName) +
    SequenceOptions(sq) + CacheClauseAsWritten(sq.cacheSize) + ";"
  }

  /**
   * The statement always ends with the cache clause the source writes and
   * ';'.
   */
  lemma SequenceDdlShape(sq: SequenceInfo, targetSchema: string)
    ensures EndsWith(SequenceDdl(sq, targetSchema), CacheClauseAsWritten(sq.cacheSize) + ";")
  {
    var head := "CREATE SEQUENCE " + targetSchema + "." + QuoteIdentifier(sq.sequenceName) + SequenceOptions(sq);
    assert SequenceDdl(sq, targetSchema) == head + (CacheClauseAsWritten(sq.cacheSize) + ";");
    SuffixOfAppend(head, CacheClauseAsWritten(sq.cacheSize) + ";");
  }

  /** Without any of the optional values the statement is just the name and NO CACHE. */
  lemma SequenceDdlBare(sq: SequenceInfo, targetSchema: string)
    requires sq.startWith.None? && sq.incrementBy.None? && sq.minValue.None? && sq.maxValue.None?
    requires sq.cycle.None? && sq.cacheSize.None?
    ensures SequenceDdl(sq, targetSchema) ==
            "CREATE SEQUENCE " + targetSchema + "." + QuoteIdentifier(sq.sequenceName) + " NO CACHE;"
  {
  }

  /** A cache size within the long range gets the intended clause: CACHE n exactly for 1 < n <= Integer.MAX_VALUE. */
  lemma SequenceDdlCache(sq: SequenceInfo, targetSchema: string, n: int)
    requires sq.cacheSize.None? || LONG_MIN <= sq.cacheSize.value <= LONG_MAX
    ensures EndsWith(SequenceDdl(sq, targetSchema), CacheClause(sq.cacheSize) + ";")
    ensures CacheClause(sq.cacheSize) == " CACHE " + IntToString(n) <==> sq.cacheSize == Some(n) && 1 < n <= INT_MAX
  {
    SequenceDdlShape(sq, targetSchema);
    CacheInLongRange(sq.cacheSize);
    CacheClauseExact(sq.cacheSize, n);
  }

  // ---------------------------------------------------------------- view DDL

  /** generateViewDDL: WITH CHECK OPTION only when checkOption is true. */
  function ViewDdl(view: ViewInfo, convertedSql: string, targetSchema: string): string
  {
    "CREATE VIEW " + targetSchema + "." + QuoteIdentifier(view.viewName) + " AS\n" + convertedSql +
    (if view.checkOption == Some(true) then "\nWITH CHECK OPTION" else "") + ";"
  }

  /** The converted query comes after " AS\n", then the optional check option, then ';'. */
  lemma ViewDdlShape(view: ViewInfo, convertedSql: string, targetSchema: string)
    ensures view.checkOption == Some(true) ==>
              EndsWith(ViewDdl(view, convertedSql, targetSchema), " AS\n" + convertedSql + "\nWITH CHECK OPTION;")
    ensures view.checkOption != Some(true) ==>
              EndsWith(ViewDdl(view, convertedSql, targetSchema), " AS\n" + convertedSql + ";")
  {
    var head := "CREATE VIEW " + targetSchema + "." + QuoteIdentifier(view.viewName);
    var opt := if view.checkOption == Some(true) then "\nWITH CHECK OPTION" else "";
    assert ViewDdl(view, convertedSql, targetSchema) == head + (" AS\n" + convertedSql + opt + ";");
    SuffixOfAppend(head, " AS\n" + convertedSql + opt + ";");
  }

  // ---------------------------------------------------------------- issue checkers

  const CONNECT_BY_ISSUE := "Contains CONNECT BY - may need manual conversion to recursive CTE"
  const ROWNUM_ISSUE := "Contains ROWNUM - converted to ROW_NUMBER()"
  const DECODE_ISSUE := "Contains DECODE - converted to CASE WHEN"
  const DUAL_ISSUE := "Contains DUAL table - removed (not needed in PostgreSQL)"

  /** checkViewIssues' four tests on the upper-cased definition, in order. */
  function ViewChecks(viewDefinition: Option<string>): (r: seq<(bool, string)>)
    ensures viewDefinition.None? ==> r == []
  {
    if viewDefinition.None? then []
    else
      var u := Upper(viewDefinition.value);
      [(Contains(u, "CONNECT BY"), CONNECT_BY_ISSUE), (Contains(u, "ROWNUM"), ROWNUM_ISSUE),
       (Contains(u, "DECODE"), DECODE_ISSUE), (Contains(u, "DUAL"), DUAL_ISSUE)]
  }

  /** checkViewIssues, appending a message for each construct found. */
  method CheckViewIssues(viewDefinition: Option<string>) returns (issues: seq<string>)
    ensures issues == Selected(ViewChecks(viewDefinition))
  {
    issues := [];
    if viewDefinition.None? {
      return;
    }
    var upper := Upper(viewDefinition.value);
    SelectedFour(Contains(upper, "CONNECT BY"), Contains(upper, "ROWNUM"), Contains(upper, "DECODE"),
                 Contains(upper, "DUAL"), CONNECT_BY_ISSUE, ROWNUM_ISSUE, DECODE_ISSUE, DUAL_ISSUE);
    if Contains(upper, "CONNECT BY") {
      issues := issues + [CONNECT_BY_ISSUE];
    }
    if Contains(upper, "ROWNUM") {
      issues := issues + [ROWNUM_ISSUE];
    }
    if Contains(upper, "DECODE") {
      issues := issues + [DECODE_ISSUE];
    }
    if Contains(upper, "DUAL") {
      issues := issues + [DUAL_ISSUE];
    }
  }

  /**
   * A view's issues name CONNECT BY, ROWNUM, DECODE and DUAL exactly when
   * the definition contains them in any letter case; a null definition has
   * none.
   */
  lemma ViewIssuesReported(def: string)
    ensures var issues := Selected(ViewChecks(Some(def)));
            var u := Upper(def);
            (CONNECT_BY_ISSUE in issues <==> Contains(u, "CONNECT BY")) &&
            (ROWNUM_ISSUE in issues <==> Contains(u, "ROWNUM")) &&
            (DECODE_ISSUE in issues <==> Contains(u, "DECODE")) &&
            (DUAL_ISSUE in issues <==> Contains(u, "DUAL"))
  {
    var checks := ViewChecks(Some(def));
    assert checks[0].1 == CONNECT_BY_ISSUE && checks[1].1 == ROWNUM_ISSUE && checks[2].1 == DECODE_ISSUE && checks[3].1 == DUAL_ISSUE;
    assert DistinctMessages(checks);
    SelectedIff(checks, 0);
    SelectedIff(checks, 1);
    SelectedIff(checks, 2);
    SelectedIff(checks, 3);
  }

  const BITMAP_ISSUE := "Bitmap index converted to B-tree (PostgreSQL doesn't support bitmap indexes)"
  const FUNCTION_INDEX_ISSUE := "Function-based index - verify expression compatibility"

  /** checkIndexIssues' two tests: BITMAP in any case, and a type containing FUNCTION (case-sensitive). */
  function IndexChecks(index: IndexInfo): seq<(bool, string)>
  {
    [(IsBitmap(index.indexType), BITMAP_ISSUE),
     (index.indexType.Some? && Contains(index.indexType.value, "FUNCTION"), FUNCTION_INDEX_ISSUE)]
  }

  method CheckIndexIssues(index: IndexInfo) returns (issues: seq<string>)
    ensures issues == Selected(IndexChecks(index))
  {
    issues := [];
    if IsBitmap(index.indexType) {
      issues := issues + [BITMAP_ISSUE];
    }
    if index.indexType.Some? && Contains(index.indexType.value, "FUNCTION") {
      issues := issues + [FUNCTION_INDEX_ISSUE];
    }
  }

  /** An index is reported as bitmap, resp. function-based, exactly when its type says so. */
  lemma IndexIssuesReported(index: IndexInfo)
    ensures var issues := Selected(IndexChecks(index));
            (BITMAP_ISSUE in issues <==> IsBitmap(index.indexType)) &&
            (FUNCTION_INDEX_ISSUE in issues <==> index.indexType.Some? && Contains(index.indexType.value, "FUNCTION"))
  {
    var checks := IndexChecks(index);
    assert checks[0].1 == BITMAP_ISSUE && checks[1].1 == FUNCTION_INDEX_ISSUE;
    assert DistinctMessages(checks);
    SelectedIff(checks, 0);
    SelectedIff(checks, 1);
  }

  const DISABLED_ISSUE := "Constraint was disabled in Oracle - verify if it should be enabled"
  const DECODE_CHECK_ISSUE := "Check condition contains DECODE - converted to CASE WHEN"

  /** checkConstraintIssues' two tests: status DISABLED in any case, and DECODE in the condition. */
  function ConstraintChecks(c: ConstraintInfo): seq<(bool, string)>
  {
    [(c.status.Some? && EqualsIgnoreCase(c.status.value, "DISABLED"), DISABLED_ISSUE),
     (c.checkCondition.Some? && Contains(Upper(c.checkCondition.value), "DECODE"), DECODE_CHECK_ISSUE)]
  }

  method CheckConstraintIssues(c: ConstraintInfo) returns (issues: seq<string>)
    ensures issues == Selected(ConstraintChecks(c))
  {
    issues := [];
    if c.status.Some? && EqualsIgnoreCase(c.status.value, "DISABLED") {
      issues := issues + [DISABLED_ISSUE];
    }
    if c.checkCondition.Some? && Contains(Upper(c.checkCondition.value), "DECODE") {
      issues := issues + [DECODE_CHECK_ISSUE];
    }
  }

  /** A constraint is reported as disabled, resp. using DECODE, exactly when it is. */
  lemma ConstraintIssuesReported(c: ConstraintInfo)
    ensures var issues := Selected(ConstraintChecks(c));
            (DISABLED_ISSUE in issues <==> c.status.Some? && EqualsIgnoreCase(c.status.value, "DISABLED")) &&
            (DECODE_CHECK_ISSUE in issues <==> c.checkCondition.Some? && Contains(Upper(c.checkCondition.value), "DECODE"))
  {
    var checks := ConstraintChecks(c);
    assert checks[0].1 == DISABLED_ISSUE && checks[1].1 == DECODE_CHECK_ISSUE;
    assert DistinctMessages(checks);
    SelectedIff(checks, 0);
    SelectedIff(checks, 1);
  }

  // ---------------------------------------------------------------- grouping

  /** One row of the index catalogue query. */
  datatype IndexRow = IndexRow(
    indexName: Option<string>,
    tableName: Option<string>,
    uniqueness: Option<string>,
    indexType: Option<string>,
    tablespaceName: Option<string>,
    status: Option<string>,
    columnName: Option<string>)

  /** The IndexInfo made for the first row of an index, before its column is added. */
  function NewIndex(row: IndexRow, schema: string): IndexInfo
  {
    var unique := row.uniqueness.Some? && EqualsIgnoreCase(row.uniqueness.value, "UNIQUE");
    IndexInfo(row.indexName, row.tableName, schema, row.indexType, unique, [], row.tablespaceName, row.status)
  }

  /** The position of the index called name, if there is one. */
  function FindIndex(groups: seq<IndexInfo>, name: Option<string>): (r: Option<nat>)
    ensures r.Some? ==> r.value < |groups| && groups[r.value].indexName == name
    ensures r.None? ==> forall k :: 0 <= k < |groups| ==> groups[k].indexName != name
  {
    if groups == [] then None
    else if groups[0].indexName == name then Some(0)
    else match FindIndex(groups[1..], name)
      case None => None
      case Some(k) => Some(k + 1)
  }

  /** One turn of the discoverIndexes loop: look the index up or add it, then add the row's column. */
  function AddIndexRow(groups: seq<IndexInfo>, row: IndexRow, schema: string): (r: seq<IndexInfo>)
    ensures |r| == |groups| || |r| == |groups| + 1
  {
    var found := FindIndex(groups, row.indexName);
    var gs := if found.Some? then groups else groups + [NewIndex(row, schema)];
    var k := if found.Some? then found.value else |groups|;
    if row.columnName.Some? then gs[k := gs[k].(columns := gs[k].columns + [row.columnName.value])] else gs
  }

  /** The indexes after the given rows, in the map's insertion order. */
  function IndexGroups(rows: seq<IndexRow>, schema: string): seq<IndexInfo>
  {
    if rows == [] then [] else AddIndexRow(IndexGroups(rows[..|rows| - 1], schema), rows[|rows| - 1], schema)
  }

  /** The row-grouping loop of discoverIndexes over the rows the query returns. */
  method DiscoverIndexes(rows: seq<IndexRow>, schema: string) returns (indexes: seq<IndexInfo>)
    ensures indexes == IndexGroups(rows, schema)
  {
    indexes := [];
    var i := 0;
    while i < |rows|
      invariant 0 <= i <= |rows|
      invariant indexes == IndexGroups(rows[..i], schema)
    {
      var row := rows[i];
      var found := FindIndex(indexes, row.indexName);
      var k: nat;
      if found.None? {
        indexes := indexes + [NewIndex(row, schema)];
        k := |indexes| - 1;
      } else {
        k := found.value;
      }
      if row.columnName.Some? {
        indexes := indexes[k := indexes[k].(columns := indexes[k].columns + [row.columnName.value])];
      }
      assert rows[..i + 1][..i] == rows[..i];
      i := i + 1;
    }
    assert rows[..i] == rows;
  }

  /** The index names of the rows, in row order. */
  function IndexNames(rows: seq<IndexRow>): (r: seq<Option<string>>)
    ensures |r| == |rows|
  {
    if rows == [] then [] else IndexNames(rows[..|rows| - 1]) + [rows[|rows| - 1].indexName]
  }

  /** The first row of the index called name. */
  function FirstIndexRow(rows: seq<IndexRow>, name: Option<string>): (r: Option<IndexRow>)
    ensures r.Some? ==> r.value in rows && r.value.indexName == name
  {
    if rows == [] then None
    else match FirstIndexRow(rows[..|rows| - 1], name)
      case Some(row) => Some(row)
      case None => if rows[|rows| - 1].indexName == name then Some(rows[|rows| - 1]) else None
  }

  /** The non-null column names of the rows of the index called name, in row order. */
  function IndexColumnsOf(rows: seq<IndexRow>, name: Option<string>): seq<string>
  {
    if rows == [] then []
    else
      var row := rows[|rows| - 1];
      IndexColumnsOf(rows[..|rows| - 1], name) +
      (if row.indexName == name && row.columnName.Some? then [row.columnName.value] else [])
  }

  /**
   * groups holds one index per distinct name of rows, in first-seen order;
   * each is built from the first row with its name and lists the columns
   * of all rows with that name, in row order.
   */
  predicate DescribesIndexes(groups: seq<IndexInfo>, rows: seq<IndexRow>, schema: string)
  {
    var names := FirstSeen(IndexNames(rows));
    |groups| == |names| &&
    forall k :: 0 <= k < |groups| ==>
      groups[k].indexName == names[k] && FirstIndexRow(rows, names[k]).Some? &&
      groups[k] == NewIndex(FirstIndexRow(rows, names[k]).value, schema).(columns := IndexColumnsOf(rows, names[k]))
  }

  lemma IndexRowsSnoc(rows: seq<IndexRow>, row: IndexRow, name: Option<string>)
    ensures IndexNames(rows + [row]) == IndexNames(rows) + [row.indexName]
    ensures FirstIndexRow(rows + [row], name) ==
              if FirstIndexRow(rows, name).Some? then FirstIndexRow(rows, name)
              else if row.indexName == name then Some(row) else None
    ensures IndexColumnsOf(rows + [row], name) ==
              IndexColumnsOf(rows, name) + (if row.indexName == name && row.columnName.Some? then [row.columnName.value] else [])
  {
    assert (rows + [row])[..|rows|] == rows;
  }

  /** A name that occurs in no row has no first row and no columns. */
  lemma {:induction false} AbsentIndexName(rows: seq<IndexRow>, name: Option<string>)
    requires name !in IndexNames(rows)
    ensures FirstIndexRow(rows, name).None? && IndexColumnsOf(rows, name) == []
    decreases |rows|
  {
    if rows != [] {
      var init := rows[..|rows| - 1];
      assert rows == init + [rows[|rows| - 1]];
      IndexRowsSnoc(init, rows[|rows| - 1], name);
      AbsentIndexName(init, name);
    }
  }

  /** A row for a known index only extends that index's columns. */
  lemma IndexStepKnown(groups: seq<IndexInfo>, rows: seq<IndexRow>, row: IndexRow, schema: string, k: nat)
    requires DescribesIndexes(groups, rows, schema)
    requires FindIndex(groups, row.indexName) == Some(k)
    ensures DescribesIndexes(AddIndexRow(groups, row, schema), rows + [row], schema)
  {
    var names := FirstSeen(IndexNames(rows));
    FirstSeenProperties(IndexNames(rows));
    IndexRowsSnoc(rows, row, row.indexName);
    FirstSeenSnoc(IndexNames(rows), row.indexName);
    assert names[k] == row.indexName;
    var after := AddIndexRow(groups, row, schema);
    forall j | 0 <= j < |after|
      ensures after[j].indexName == names[j] && FirstIndexRow(rows + [row], names[j]).Some? &&
              after[j] == NewIndex(FirstIndexRow(rows + [row], names[j]).value, schema).(columns := IndexColumnsOf(rows + [row], names[j]))
    {
      IndexRowsSnoc(rows, row, names[j]);
    }
  }

  /** A row for a new index appends that index. */
  lemma IndexStepNew(groups: seq<IndexInfo>, rows: seq<IndexRow>, row: IndexRow, schema: string)
    requires DescribesIndexes(groups, rows, schema)
    requires FindIndex(groups, row.indexName).None?
    ensures DescribesIndexes(AddIndexRow(groups, row, schema), rows + [row], schema)
  {
    var names := FirstSeen(IndexNames(rows));
    FirstSeenProperties(IndexNames(rows));
    forall j | 0 <= j < |names|
      ensures names[j] != row.indexName
    {
      assert groups[j].indexName == names[j];
    }
    assert row.indexName !in names;
    AbsentIndexName(rows, row.indexName);
    IndexRowsSnoc(rows, row, row.indexName);
    FirstSeenSnoc(IndexNames(rows), row.indexName);
    var names' := names + [row.indexName];
    var after := AddIndexRow(groups, row, schema);
    forall j | 0 <= j < |after|
      ensures after[j].indexName == names'[j] && FirstIndexRow(rows + [row], names'[j]).Some? &&
              after[j] == NewIndex(FirstIndexRow(rows + [row], names'[j]).value, schema).(columns := IndexColumnsOf(rows + [row], names'[j]))
    {
      IndexRowsSnoc(rows, row, names'[j]);
    }
  }

  /**
   * discoverIndexes yields one index per distinct index name, in
   * first-seen order: built from the first row with that name, with the
   * non-null columns of all its rows in row order.
   */
  lemma {:induction false} IndexGroupsDescribe(rows: seq<IndexRow>, schema: string)
    ensures DescribesIndexes(IndexGroups(rows, schema), rows, schema)
    decreases |rows|
  {
    if rows != [] {
      var init := rows[..|rows| - 1];
      var row := rows[|rows| - 1];
      assert rows == init + [row];
      IndexGroupsDescribe(init, schema);
      var gs := IndexGroups(init, schema);
      match FindIndex(gs, row.indexName)
        case Some(k) => IndexStepKnown(gs, init, row, schema, k);
        case None => IndexStepNew(gs, init, row, schema);
    }
  }

  /** One row of the constraint catalogue query. */
  datatype ConstraintRow = ConstraintRow(
    constraintName: Option<string>,
    tableName: Option<string>,
    constraintType: Option<string>,
    status: Option<string>,
    searchCondition: Option<string>,
    columnName: Option<string>,
    referencedTableName: Option<string>,
    deleteRule: Option<string>)

  /** The switch on Oracle's constraint type code; an unknown code leaves the type unset. */
  function ConstraintKind(code: string): (r: Option<string>)
    ensures code == "P" <==> r == Some("PRIMARY KEY")
    ensures code == "R" <==> r == Some("FOREIGN KEY")
    ensures code == "U" <==> r == Some("UNIQUE")
    ensures code == "C" <==> r == Some("CHECK")
    ensures r.None? <==> code !in {"P", "R", "U", "C"}
  {
    match code
      case "P" => Some("PRIMARY KEY")
      case "R" => Some("FOREIGN KEY")
      case "U" => Some("UNIQUE")
      case "C" => Some("CHECK")
      case _ => None
  }

  /**
   * The ConstraintInfo made for the first row of a constraint, before its
   * column is added; the referenced table and schema are set for foreign
   * keys only. The row's type code must be non-null (the switch throws on
   * null).
   */
  function NewConstraint(row: ConstraintRow, schema: string): ConstraintInfo
    requires row.constraintType.Some?
  {
    var kind := ConstraintKind(row.constraintType.value);
    var fk := kind == Some("FOREIGN KEY");
    ConstraintInfo(row.constraintName, row.tableName, schema, kind, [],
                   if fk then row.referencedTableName else None, if fk then Some(schema) else None, [],
                   row.searchCondition, row.deleteRule, row.status)
  }

  function FindConstraint(groups: seq<ConstraintInfo>, name: Option<string>): (r: Option<nat>)
    ensures r.Some? ==> r.value < |groups| && groups[r.value].constraintName == name
    ensures r.None? ==> forall k :: 0 <= k < |groups| ==> groups[k].constraintName != name
  {
    if groups == [] then None
    else if groups[0].constraintName == name then Some(0)
    else match FindConstraint(groups[1..], name)
      case None => None
      case Some(k) => Some(k + 1)
  }

  /**
   * One turn of the discoverConstraints loop: look the constraint up or add
   * it (None when its type is null), then add the row's column unless it is
   * already listed.
   */
  function AddConstraintRow(groups: seq<ConstraintInfo>, row: ConstraintRow, schema: string): Option<seq<ConstraintInfo>>
  {
    match FindConstraint(groups, row.constraintName)
      case Some(k) => Some(groups[k := WithColumn(groups[k], row.columnName)])
      case None =>
        if row.constraintType.None? then None
        else Some(groups + [WithColumn(NewConstraint(row, schema), row.columnName)])
  }

  /** The column step of AddConstraintRow on one constraint. */
  function WithColumn(g: ConstraintInfo, column: Option<string>): ConstraintInfo
  {
    if column.Some? && column.value !in g.columns then g.(columns := g.columns + [column.value]) else g
  }

  /** The constraints after the given rows, or None once a switch has thrown. */
  function ConstraintGroups(rows: seq<ConstraintRow>, schema: string): Option<seq<ConstraintInfo>>
  {
    if rows == [] then Some([])
    else match ConstraintGroups(rows[..|rows| - 1], schema)
      case None => None
      case Some(gs) => AddConstraintRow(gs, rows[|rows| - 1], schema)
  }

  /** The row-grouping loop of discoverConstraints; None stands for the NullPointerException. */
  method DiscoverConstraints(rows: seq<ConstraintRow>, schema: string) returns (r: Option<seq<ConstraintInfo>>)
    ensures r == ConstraintGroups(rows, schema)
  {
    var constraints: seq<ConstraintInfo> := [];
    var i := 0;
    while i < |rows|
      invariant 0 <= i <= |rows|
      invariant ConstraintGroups(rows[..i], schema) == Some(constraints)
    {
      var row := rows[i];
      assert rows[..i + 1][..i] == rows[..i];
      var found := FindConstraint(constraints, row.constraintName);
      var c: ConstraintInfo;
      if found.None? {
        if row.constraintType.None? {
          ConstraintFailureStays(rows, i + 1, schema);
          return None;
        }
        c := NewConstraint(row, schema);
      } else {
        c := constraints[found.value];
      }
      if row.columnName.Some? && row.columnName.value !in c.columns {
        c := c.(columns := c.columns + [row.columnName.value]);
      }
      if found.None? {
        constraints := constraints + [c];
      } else {
        constraints := constraints[found.value := c];
      }
      i := i + 1;
    }
    assert rows[..i] == rows;
    r := Some(constraints);
  }

  function ConstraintNames(rows: seq<ConstraintRow>): (r: seq<Option<string>>)
    ensures |r| == |rows|
  {
    if rows == [] then [] else ConstraintNames(rows[..|rows| - 1]) + [rows[|rows| - 1].constraintName]
  }

  function FirstConstraintRow(rows: seq<ConstraintRow>, name: Option<string>): (r: Option<ConstraintRow>)
    ensures r.Some? ==> r.value in rows && r.value.constraintName == name
  {
    if rows == [] then None
    else match FirstConstraintRow(rows[..|rows| - 1], name)
      case Some(row) => Some(row)
      case None => if rows[|rows| - 1].constraintName == name then Some(rows[|rows| - 1]) else None
  }

  /** The non-null column names of the rows of the constraint called name, repeats included. */
  function ConstraintColumnsOf(rows: seq<ConstraintRow>, name: Option<string>): seq<string>
  {
    if rows == [] then []
    else
      var row := rows[|rows| - 1];
      ConstraintColumnsOf(rows[..|rows| - 1], name) +
      (if row.constraintName == name && row.columnName.Some? then [row.columnName.value] else [])
  }

  /** Every row that is the first of its constraint carries a type code. */
  predicate FirstRowsTyped(rows: seq<ConstraintRow>)
  {
    forall i :: 0 <= i < |rows| && rows[i].constraintName !in ConstraintNames(rows[..i]) ==> rows[i].constraintType.Some?
  }

  /**
   * groups holds one constraint per distinct name, in first-seen order,
   * each as DescribesConstraint says.
   */
  predicate DescribesConstraints(groups: seq<ConstraintInfo>, rows: seq<ConstraintRow>, schema: string)
  {
    var names := FirstSeen(ConstraintNames(rows));
    |groups| == |names| &&
    forall k :: 0 <= k < |groups| ==> DescribesConstraint(groups[k], rows, schema, names[k])
  }

  /**
   * g is the constraint called name: built from the first row with that
   * name, listing the distinct columns of its rows in first-seen order.
   */
  predicate DescribesConstraint(g: ConstraintInfo, rows: seq<ConstraintRow>, schema: string, name: Option<string>)
  {
    var first := FirstConstraintRow(rows, name);
    g.constraintName == name && first.Some? && first.value.constraintType.Some? &&
    g == NewConstraint(first.value, schema).(columns := FirstSeen(ConstraintColumnsOf(rows, name)))
  }

  lemma ConstraintRowsSnoc(rows: seq<ConstraintRow>, row: ConstraintRow, name: Option<string>)
    ensures ConstraintNames(rows + [row]) == ConstraintNames(rows) + [row.constraintName]
    ensures FirstConstraintRow(rows + [row], name) ==
              if FirstConstraintRow(rows, name).Some? then FirstConstraintRow(rows, name)
              else if row.constraintName == name then Some(row) else None
    ensures ConstraintColumnsOf(rows + [row], name) ==
              ConstraintColumnsOf(rows, name) +
              (if row.constraintName == name && row.columnName.Some? then [row.columnName.value] else [])
  {
    assert (rows + [row])[..|rows|] == rows;
  }

  lemma {:induction false} AbsentConstraintName(rows: seq<ConstraintRow>, name: Option<string>)
    requires name !in ConstraintNames(rows)
    ensures FirstConstraintRow(rows, name).None? && ConstraintColumnsOf(rows, name) == []
    decreases |rows|
  {
    if rows != [] {
      var init := rows[..|rows| - 1];
      assert rows == init + [rows[|rows| - 1]];
      ConstraintRowsSnoc(init, rows[|rows| - 1], name);
      AbsentConstraintName(init, name);
    }
  }

  lemma FirstRowsTypedSnoc(rows: seq<ConstraintRow>, row: ConstraintRow)
    ensures FirstRowsTyped(rows + [row]) <==>
              FirstRowsTyped(rows) && (row.constraintName in ConstraintNames(rows) || row.constraintType.Some?)
  {
    var all := rows + [row];
    forall i | 0 <= i < |rows|
      ensures all[i] == rows[i] && all[..i] == rows[..i]
    {
    }
    assert all[..|rows|] == rows;
    ConstraintRowsSnoc(rows, row, row.constraintName);
    assert ConstraintNames(all[..|rows|]) == ConstraintNames(rows);
  }

  /** A row of another constraint leaves this one's description true. */
  lemma ConstraintOtherRow(g: ConstraintInfo, rows: seq<ConstraintRow>, row: ConstraintRow, schema: string, name: Option<string>)
    requires DescribesConstraint(g, rows, schema, name) && row.constraintName != name
    ensures DescribesConstraint(g, rows + [row], schema, name)
  {
    ConstraintRowsSnoc(rows, row, name);
    assert FirstConstraintRow(rows + [row], name) == FirstConstraintRow(rows, name);
    assert ConstraintColumnsOf(rows + [row], name) == ConstraintColumnsOf(rows, name) + [];
    assert ConstraintColumnsOf(rows, name) + [] == ConstraintColumnsOf(rows, name);
  }

  /** A row of this constraint adds its column unless it is already listed. */
  lemma ConstraintSameRow(g: ConstraintInfo, rows: seq<ConstraintRow>, row: ConstraintRow, schema: string)
    requires DescribesConstraint(g, rows, schema, row.constraintName)
    ensures DescribesConstraint(WithColumn(g, row.columnName), rows + [row], schema, row.constraintName)
  {
    ConstraintRowsSnoc(rows, row, row.constraintName);
    if row.columnName.Some? {
      FirstSeenSnoc(ConstraintColumnsOf(rows, row.constraintName), row.columnName.value);
    } else {
      assert ConstraintColumnsOf(rows + [row], row.constraintName) == ConstraintColumnsOf(rows, row.constraintName);
    }
  }

  /** The first row of a constraint makes it, with its column. */
  lemma ConstraintFirstRow(rows: seq<ConstraintRow>, row: ConstraintRow, schema: string)
    requires row.constraintName !in ConstraintNames(rows) && row.constraintType.Some?
    ensures DescribesConstraint(WithColumn(NewConstraint(row, schema), row.columnName), rows + [row], schema, row.constraintName)
  {
    AbsentConstraintName(rows, row.constraintName);
    ConstraintRowsSnoc(rows, row, row.constraintName);
    if row.columnName.Some? {
      FirstSeenSnoc([], row.columnName.value);
      assert [] + [row.columnName.value] == [row.columnName.value];
    } else {
      assert ConstraintColumnsOf(rows + [row], row.constraintName) == [];
    }
  }

  lemma ConstraintStepKnown(groups: seq<ConstraintInfo>, rows: seq<ConstraintRow>, row: ConstraintRow, schema: string, k: nat)
    requires DescribesConstraints(groups, rows, schema)
    requires FindConstraint(groups, row.constraintName) == Some(k)
    ensures DescribesConstraints(groups[k := WithColumn(groups[k], row.columnName)], rows + [row], schema)
  {
    var names := FirstSeen(ConstraintNames(rows));
    FirstSeenProperties(ConstraintNames(rows));
    ConstraintRowsSnoc(rows, row, row.constraintName);
    FirstSeenSnoc(ConstraintNames(rows), row.constraintName);
    assert names[k] == row.constraintName by {
      assert DescribesConstraint(groups[k], rows, schema, names[k]);
    }
    var after := groups[k := WithColumn(groups[k], row.columnName)];
    forall j | 0 <= j < |after|
      ensures DescribesConstraint(after[j], rows + [row], schema, names[j])
    {
      assert DescribesConstraint(groups[j], rows, schema, names[j]);
      if j == k {
        ConstraintSameRow(groups[k], rows, row, schema);
      } else {
        ConstraintOtherRow(groups[j], rows, row, schema, names[j]);
      }
    }
  }

  lemma ConstraintStepNew(groups: seq<ConstraintInfo>, rows: seq<ConstraintRow>, row: ConstraintRow, schema: string)
    requires DescribesConstraints(groups, rows, schema)
    requires row.constraintName !in ConstraintNames(rows) && row.constraintType.Some?
    ensures DescribesConstraints(groups + [WithColumn(NewConstraint(row, schema), row.columnName)], rows + [row], schema)
  {
    var names := FirstSeen(ConstraintNames(rows));
    FirstSeenProperties(ConstraintNames(rows));
    ConstraintRowsSnoc(rows, row, row.constraintName);
    FirstSeenSnoc(ConstraintNames(rows), row.constraintName);
    var after := groups + [WithColumn(NewConstraint(row, schema), row.columnName)];
    var names' := names + [row.constraintName];
    forall j | 0 <= j < |after|
      ensures DescribesConstraint(after[j], rows + [row], schema, names'[j])
    {
      if j == |groups| {
        ConstraintFirstRow(rows, row, schema);
      } else {
        assert DescribesConstraint(groups[j], rows, schema, names[j]);
        ConstraintOtherRow(groups[j], rows, row, schema, names[j]);
      }
    }
  }

  /** Once a switch has thrown, later rows do not matter. */
  lemma {:induction false} ConstraintFailureStays(rows: seq<ConstraintRow>, i: nat, schema: string)
    requires i <= |rows| && ConstraintGroups(rows[..i], schema).None?
    ensures ConstraintGroups(rows, schema).None?
    decreases |rows| - i
  {
    if i < |rows| {
      assert rows[..i + 1][..i] == rows[..i];
      ConstraintFailureStays(rows, i + 1, schema);
    } else {
      assert rows[..i] == rows;
    }
  }

  /**
   * discoverConstraints succeeds exactly when every constraint's first row
   * has a type code; it then yields one constraint per distinct name, in
   * first-seen order, built from its first row (P, R, U, C mapped to
   * PRIMARY KEY, FOREIGN KEY, UNIQUE, CHECK) and listing its distinct
   * non-null columns in first-seen order.
   */
  lemma {:induction false} ConstraintGroupsDescribe(rows: seq<ConstraintRow>, schema: string)
    ensures ConstraintGroups(rows, schema).Some? <==> FirstRowsTyped(rows)
    ensures ConstraintGroups(rows, schema).Some? ==> DescribesConstraints(ConstraintGroups(rows, schema).value, rows, schema)
    decreases |rows|
  {
    if rows != [] {
      var init := rows[..|rows| - 1];
      var row := rows[|rows| - 1];
      assert rows == init + [row];
      ConstraintGroupsDescribe(init, schema);
      FirstRowsTypedSnoc(init, row);
      match ConstraintGroups(init, schema)
        case None =>
        case Some(gs) =>
          FirstSeenProperties(ConstraintNames(init));
          var names := FirstSeen(ConstraintNames(init));
          match FindConstraint(gs, row.constraintName)
            case Some(k) =>
              assert DescribesConstraint(gs[k], init, schema, names[k]);
              assert row.constraintName in ConstraintNames(init);
              ConstraintStepKnown(gs, init, row, schema, k);
            case None =>
              forall j | 0 <= j < |names|
                ensures names[j] != row.constraintName
              {
                assert DescribesConstraint(gs[j], init, schema, names[j]);
              }
              assert row.constraintName !in ConstraintNames(init);
              if row.constraintType.Some? {
                ConstraintStepNew(gs, init, row, schema);
              }
    } else {
      assert FirstRowsTyped(rows);
    }
  }
}
