// Pg2PgJsonImportService: a pipeline step built from an already parsed
// JSON mapping file, and the classification of transformation expressions.

module Pg2PgJsonImportService {
  import opened JavaStr
  import opened PipelineModel

  /** One column entry of the mapping file; every field may be absent. */
  datatype ColumnMappingJson = ColumnMappingJson(
    targetColumn: Option<string>,
    targetType: Option<string>,
    transformation: Option<string>,
    description: Option<string>)

  /** The filter object: `enabled` is a primitive boolean. */
  datatype FilterJson = FilterJson(enabled: bool, whereClause: Option<string>, description: Option<string>)

  /** The options object: both flags are primitive booleans. */
  datatype OptionsJson = OptionsJson(disableTriggers: bool, disableConstraints: bool)

  /**
   * The parsed document. column_mappings keeps the file's key order; a
   * value is None when the file gives null for it.
   */
  datatype MappingJson = MappingJson(
    sourceTable: Option<string>,
    sourceSchema: Option<string>,
    targetTable: Option<string>,
    targetSchema: Option<string>,
    description: Option<string>,
    options: Option<OptionsJson>,
    columnMappings: Option<seq<(string, Option<ColumnMappingJson>)>>,
    filter: Option<FilterJson>)

  // ---------------------------------------------------------------- classification

  /**
   * determineTransformationType: the first rule that matches the lower-cased,
   * trimmed expression names the type.
   */
  function DetermineTransformationType(transformation: Option<string>): (r: string)
    ensures r in {"direct", "case-when", "subquery", "static", "concat", "type-cast", "coalesce", "function"}
  {
    if transformation.None? || Trim(transformation.value) == [] then "direct"
    else Classify(Trim(Lower(transformation.value)))
  }

  /** The rules, in order, applied to the lower-cased, trimmed expression l. */
  function Classify(l: string): (r: string)
    ensures r in {"direct", "case-when", "subquery", "static", "concat", "type-cast", "coalesce", "function"}
  {
    if StartsWith(l, "case") || Contains(l, "when") then "case-when"
    else if StartsWith(l, "select") || Contains(l, "from") then "subquery"
    else if StartsWith(l, "'") && EndsWith(l, "'") then "static"
    else if Contains(l, "||") || Contains(l, "concat") then "concat"
    else if Contains(l, "::") || Contains(l, "cast") then "type-cast"
    else if Contains(l, "coalesce") then "coalesce"
    else if Contains(l, "(") && Contains(l, ")") then "function"
    else "direct"
  }

  /** Case mapping keeps blank text blank and other text non-blank. */
  lemma UpperKeepsBlank(s: string)
    ensures IsBlank(Upper(s)) <==> IsBlank(s)
  {
    assert forall i :: 0 <= i < |s| ==> (IsTrimChar(Upper(s)[i]) <==> IsTrimChar(s[i]));
  }

  /** The classification does not depend on letter case. */
  lemma ClassificationIgnoresCase(t: string)
    ensures DetermineTransformationType(Some(Upper(t))) == DetermineTransformationType(Some(t))
  {
    LowerOfUpper(t);
    UpperKeepsBlank(t);
    SameClassification(Upper(t), t);
  }

  /** Two expressions equally blank with the same normalised text are classified alike. */
  lemma SameClassification(t: string, u: string)
    requires IsBlank(t) <==> IsBlank(u)
    requires Trim(Lower(t)) == Trim(Lower(u))
    ensures DetermineTransformationType(Some(t)) == DetermineTransformationType(Some(u))
  {
    TrimEmptyIffBlank(t);
    TrimEmptyIffBlank(u);
  }

  /** The classification does not depend on surrounding blanks. */
  lemma ClassificationIgnoresPadding(a: string, t: string, b: string)
    requires IsBlank(a) && IsBlank(b)
    ensures DetermineTransformationType(Some(a + t + b)) == DetermineTransformationType(Some(t))
  {
    TrimOfPadded(a, t, b);
    LowerAppend(a + t, b);
    LowerAppend(a, t);
    LowerKeepsBlank(a);
    LowerKeepsBlank(b);
    TrimOfPadded(Lower(a), Lower(t), Lower(b));
    TrimEmptyIffBlank(a + t + b);
    TrimEmptyIffBlank(t);
    SameClassification(a + t + b, t);
  }

  lemma LowerKeepsBlank(s: string)
    ensures IsBlank(Lower(s)) <==> IsBlank(s)
  {
    assert forall i :: 0 <= i < |s| ==> (IsTrimChar(Lower(s)[i]) <==> IsTrimChar(s[i]));
  }

  // ---------------------------------------------------------------- columns

  /** The trimmed key with one pair of surrounding single quotes removed; None when the key is a lone quote. */
  function CleanSourceColumn(key: string): (r: Option<string>)
    ensures r.None? <==> Trim(key) == "'"
  {
    var clean := Trim(key);
    if StartsWith(clean, "'") && EndsWith(clean, "'") then
      if |clean| < 2 then None else Some(clean[1..|clean| - 1])
    else Some(clean)
  }

  /** A quoted key gives its text back, quotes and nothing else removed. */
  lemma CleanQuotedKey(x: string)
    ensures CleanSourceColumn("'" + x + "'") == Some(x)
  {
    var q := "'" + x + "'";
    TrimOfTrimmed(q);
    assert q[1..|q| - 1] == x;
  }

  /** A key that is neither quoted nor padded is kept as it is. */
  lemma CleanPlainKey(key: string)
    requires key != [] && !IsTrimChar(key[0]) && !IsTrimChar(key[|key| - 1])
    requires key[0] != '\'' || key[|key| - 1] != '\''
    ensures CleanSourceColumn(key) == Some(key)
  {
    TrimOfTrimmed(key);
  }

  /**
   * convertColumnMapping: None when the conversion throws, which happens for
   * a null entry and for the key "'" (substring(1, 0)).
   */
  function ConvertColumnMapping(key: string, json: Option<ColumnMappingJson>): (r: Option<Pg2PgColumnMapping>)
    ensures r.None? <==> json.None? || Trim(key) == "'"
    ensures r.Some? ==> r.value.sourceColumn == CleanSourceColumn(key)
  {
    match CleanSourceColumn(key)
    case None => None
    case Some(clean) =>
      match json
      case None => None
      case Some(j) =>
        var blank := j.transformation.None? || Trim(j.transformation.value) == [];
        Some(Pg2PgColumnMapping(
          id := None,
          sourceColumn := Some(clean),
          sourceDataType := Some("VARCHAR"),
          targetColumn := if j.targetColumn.Some? then j.targetColumn else Some(clean),
          targetDataType := j.targetType,
          transformationType := Some(if blank then "direct" else DetermineTransformationType(j.transformation)),
          transformation := if blank then None else j.transformation,
          description := j.description,
          nullable := Some(true),
          isPrimaryKey := Some(false),
          isForeignKey := Some(false),
          pipelineStepId := None))
  }

  /** The defaults every converted column carries. */
  predicate HasImportDefaults(m: Pg2PgColumnMapping)
  {
    && m.sourceColumn.Some? && m.targetColumn.Some?
    && m.sourceDataType == Some("VARCHAR")
    && m.nullable == Some(true) && m.isPrimaryKey == Some(false) && m.isForeignKey == Some(false)
    && m.transformationType.Some?
    && (m.transformation.None? ==> m.transformationType == Some("direct"))
    && (m.transformation.Some? ==> !IsBlank(m.transformation.value))
  }

  /**
   * A converted column: target defaults to source, the type of a blank
   * transformation is "direct" and the transformation itself is dropped,
   * otherwise the type is the classification of the expression.
   */
  lemma ConvertedColumn(key: string, j: ColumnMappingJson)
    requires Trim(key) != "'"
    ensures var r := ConvertColumnMapping(key, Some(j));
      && r.Some? && HasImportDefaults(r.value)
      && (j.targetColumn.None? ==> r.value.targetColumn == r.value.sourceColumn)
      && (j.targetColumn.Some? ==> r.value.targetColumn == j.targetColumn)
      && (j.transformation.None? || IsBlank(j.transformation.value) ==>
            r.value.transformationType == Some("direct") && r.value.transformation.None?)
      && (j.transformation.Some? && !IsBlank(j.transformation.value) ==>
            r.value.transformation == j.transformation
            && r.value.transformationType == Some(DetermineTransformationType(j.transformation)))
  {
    if j.transformation.Some? {
      TrimEmptyIffBlank(j.transformation.value);
    }
  }

  /** The columns that convert, in the file's order. */
  function ConvertedColumns(entries: seq<(string, Option<ColumnMappingJson>)>): (r: seq<Pg2PgColumnMapping>)
    ensures |r| <= |entries|
  {
    if entries == [] then []
    else
      var last := entries[|entries| - 1];
      ConvertedColumns(entries[..|entries| - 1])
      + match ConvertColumnMapping(last.0, last.1) case None => [] case Some(m) => [m]
  }

  /** Every imported column carries the import defaults. */
  lemma {:induction false} ConvertedColumnsDefaults(entries: seq<(string, Option<ColumnMappingJson>)>)
    ensures forall k :: 0 <= k < |ConvertedColumns(entries)| ==> HasImportDefaults(ConvertedColumns(entries)[k])
  {
    if entries != [] {
      var last := entries[|entries| - 1];
      ConvertedColumnsDefaults(entries[..|entries| - 1]);
      if ConvertColumnMapping(last.0, last.1).Some? {
        ConvertedColumn(last.0, last.1.value);
      }
    }
  }

  /** Exactly the entries that are neither null nor the key "'" are imported. */
  lemma {:induction false} ConvertedColumnsCount(entries: seq<(string, Option<ColumnMappingJson>)>)
    ensures |ConvertedColumns(entries)| == Convertible(entries)
  {
    if entries != [] {
      ConvertedColumnsCount(entries[..|entries| - 1]);
    }
  }

  /** How many entries convert. */
  function Convertible(entries: seq<(string, Option<ColumnMappingJson>)>): nat
  {
    if entries == [] then 0
    else
      var last := entries[|entries| - 1];
      Convertible(entries[..|entries| - 1]) + (if last.1.None? || Trim(last.0) == "'" then 0 else 1)
  }

  /** The loop over column_mappings in convertJsonToPipelineStep. */
  method ConvertColumns(entries: seq<(string, Option<ColumnMappingJson>)>) returns (columns: seq<Pg2PgColumnMapping>)
    ensures columns == ConvertedColumns(entries)
  {
    columns := [];
    var k := 0;
    while k < |entries|
      invariant k <= |entries|
      invariant columns == ConvertedColumns(entries[..k])
    {
      assert entries[..k + 1][..k] == entries[..k];
      var (key, json) := entries[k];
      var column := ConvertColumnMapping(key, json);
      if column.Some? {
        columns := columns + [column.value];
      }
      k := k + 1;
    }
    assert entries[..k] == entries;
  }

  // ---------------------------------------------------------------- steps

  /**
   * convertJsonToPipelineStep after parsing: a draft step at order 0; the
   * filter and option fields are set only when the file has those objects.
   * None stands for a document that did not parse.
   */
  method ConvertJsonToPipelineStep(parsed: Option<MappingJson>) returns (r: Option<PipelineStep>)
    ensures r.None? <==> parsed.None?
    ensures r.Some? ==> ImportedStep(parsed.value, r.value)
  {
    if parsed.None? {
      return None;
    }
    var mapping := parsed.value;
    var step := PipelineStep(None, Some(0), mapping.sourceSchema, mapping.sourceTable, mapping.targetSchema,
                             mapping.targetTable, mapping.description, Some("draft"),
                             None, None, None, None, None, None, None);
    if mapping.filter.Some? {
      var filter := mapping.filter.value;
      step := step.(filterEnabled := Some(filter.enabled), filterWhereClause := filter.whereClause,
                    filterDescription := filter.description);
    }
    if mapping.options.Some? {
      var options := mapping.options.value;
      step := step.(disableTriggers := Some(options.disableTriggers),
                    disableConstraints := Some(options.disableConstraints));
    }
    var columns := [];
    if mapping.columnMappings.Some? {
      columns := ConvertColumns(mapping.columnMappings.value);
    }
    step := step.(columnMappings := Some(columns));
    return Some(step);
  }

  /** The step imported from a mapping document. */
  predicate ImportedStep(m: MappingJson, step: PipelineStep)
  {
    && step.id.None? && step.order == Some(0) && step.status == Some("draft") && step.pipelineId.None?
    && step.sourceSchema == m.sourceSchema && step.sourceTable == m.sourceTable
    && step.targetSchema == m.targetSchema && step.targetTable == m.targetTable
    && step.description == m.description
    && (m.filter.None? ==> step.filterEnabled.None? && step.filterWhereClause.None? && step.filterDescription.None?)
    && (m.filter.Some? ==> step.filterEnabled == Some(m.filter.value.enabled)
                           && step.filterWhereClause == m.filter.value.whereClause
                           && step.filterDescription == m.filter.value.description)
    && (m.options.None? ==> step.disableTriggers.None? && step.disableConstraints.None?)
    && (m.options.Some? ==> step.disableTriggers == Some(m.options.value.disableTriggers)
                            && step.disableConstraints == Some(m.options.value.disableConstraints))
    && step.columnMappings == Some(if m.columnMappings.None? then [] else ConvertedColumns(m.columnMappings.value))
  }
}
