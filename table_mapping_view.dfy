// The pure helpers of the table-mapping screen
// (frontend/components/table-mapping.tsx): the suggested PostgreSQL type of
// a source column, reading and writing type text with its size parameters,
// the search filter, pagination and the drop/truncate toggles.

module TableMappingView {
  import opened JavaStr
  import opened NameWords
  import DataTypeMappings
  import DS = DatabaseService

  // ---------------------------------------------------------------- JavaScript text

  /** String.prototype.trim: white space and line terminators, JavaScript's \\s. */
  function ScriptTrim(s: string): (r: string)
    ensures |r| <= |s|
    ensures r != [] ==> !IsScriptSpace(r[0]) && !IsScriptSpace(r[|r| - 1])
    ensures (s == [] || (!IsScriptSpace(s[0]) && !IsScriptSpace(s[|s| - 1]))) ==> r == s
    decreases |s|
  {
    if s == [] then s
    else if IsScriptSpace(s[0]) then ScriptTrim(s[1..])
    else if IsScriptSpace(s[|s| - 1]) then ScriptTrim(s[..|s| - 1])
    else s
  }

  /** `n && n > 0` on an optional number. */
  predicate Positive(v: Option<int>) { v.Some? && v.value > 0 }

  /** A template literal `${n}` of an integer. */
  function NumText(n: int): string { IntToString(n) }

  // ---------------------------------------------------------------- mapDataType

  /** The upper-cased, trimmed type text (oracleType.toUpperCase().trim()). */
  function UpperTrimmed(oracleType: string): string { ScriptTrim(Upper(oracleType)) }

  /** The find predicate of mapDataType: the whole text, or the base name, matches the entry's. */
  predicate MatchesBase(m: DataTypeMappings.TypeRule, upperType: string, baseType: string)
  {
    Upper(m.oracleType) == upperType || baseType == Upper(DataTypeMappings.BaseName(m.oracleType))
  }

  function FindBase(ms: seq<DataTypeMappings.TypeRule>, upperType: string, baseType: string, i: nat)
    : Option<DataTypeMappings.TypeRule>
    decreases |ms| - i
  {
    if i >= |ms| then None
    else if MatchesBase(ms[i], upperType, baseType) then Some(ms[i])
    else FindBase(ms, upperType, baseType, i + 1)
  }

  /** Entry k is the first entry from i on that matches. */
  predicate FirstBaseAt(ms: seq<DataTypeMappings.TypeRule>, upperType: string, baseType: string, i: int, k: int)
  {
    0 <= i <= k < |ms| && MatchesBase(ms[k], upperType, baseType) &&
    forall j :: i <= j < k ==> !MatchesBase(ms[j], upperType, baseType)
  }

  /** find answers None exactly when no entry matches, and otherwise the first entry that does. */
  lemma {:induction false} FindBaseSpec(ms: seq<DataTypeMappings.TypeRule>, upperType: string, baseType: string, i: nat)
    ensures var r := FindBase(ms, upperType, baseType, i);
      (r.None? <==> forall j :: i <= j < |ms| ==> !MatchesBase(ms[j], upperType, baseType)) &&
      (r.Some? ==> exists k :: FirstBaseAt(ms, upperType, baseType, i, k) && r.value == ms[k])
    decreases |ms| - i
  {
    if i < |ms| && !MatchesBase(ms[i], upperType, baseType) {
      FindBaseSpec(ms, upperType, baseType, i + 1);
      var r := FindBase(ms, upperType, baseType, i);
      if r.Some? {
        var k :| FirstBaseAt(ms, upperType, baseType, i + 1, k) && r.value == ms[k];
        assert FirstBaseAt(ms, upperType, baseType, i, k);
      }
    } else if i < |ms| {
      assert FirstBaseAt(ms, upperType, baseType, i, i);
    }
  }

  /** The table lookup that ends mapDataType: the found entry's type, or TEXT. */
  function LookupType(upperType: string, baseType: string): (r: string)
    ensures r != []
  {
    match FindBase(DataTypeMappings.DefaultDataTypeMappings(), upperType, baseType, 0)
      case None => "TEXT"
      case Some(m) => if m.postgresType == [] then "TEXT" else m.postgresType
  }

  /** The lookup answers the first matching entry's type, and TEXT only when no entry matches. */
  lemma LookupTypeSpec(upperType: string, baseType: string, k: int)
    requires FirstBaseAt(DataTypeMappings.DefaultDataTypeMappings(), upperType, baseType, 0, k)
    ensures LookupType(upperType, baseType) == DataTypeMappings.DefaultDataTypeMappings()[k].postgresType
  {
    var ms := DataTypeMappings.DefaultDataTypeMappings();
    DataTypeMappings.TableTypesNamed();
    FindBaseSpec(ms, upperType, baseType, 0);
    var k' :| FirstBaseAt(ms, upperType, baseType, 0, k') && FindBase(ms, upperType, baseType, 0).value == ms[k'];
    FirstBaseUnique(ms, upperType, baseType, k, k');
  }

  lemma FirstBaseUnique(ms: seq<DataTypeMappings.TypeRule>, upperType: string, baseType: string, k: int, k': int)
    requires FirstBaseAt(ms, upperType, baseType, 0, k) && FirstBaseAt(ms, upperType, baseType, 0, k')
    ensures k == k'
  {
  }

  /** With no matching entry the lookup falls back to TEXT. */
  lemma LookupTypeNone(upperType: string, baseType: string)
    requires var ms := DataTypeMappings.DefaultDataTypeMappings();
      forall j :: 0 <= j < |ms| ==> !MatchesBase(ms[j], upperType, baseType)
    ensures LookupType(upperType, baseType) == "TEXT"
  {
    FindBaseSpec(DataTypeMappings.DefaultDataTypeMappings(), upperType, baseType, 0);
  }

  /** mapDataType: the PostgreSQL type suggested for a source column. */
  function MapDataType(oracleType: string, dataLength: Option<int>, dataPrecision: Option<int>,
                       dataScale: Option<int>): (r: string)
    ensures r != []
  {
    if oracleType == [] then "TEXT"
    else
      var u := UpperTrimmed(oracleType);
      var b := DS.BaseType(u);
      if b == "VARCHAR2" || b == "NVARCHAR2" then
        if Positive(dataLength) then "VARCHAR(" + NumText(dataLength.value) + ")"
        else if '(' in u then "VARCHAR" + DS.Params(u)
        else "TEXT"
      else if b == "NUMBER" then
        if Positive(dataPrecision) then
          if Positive(dataScale) then "NUMERIC(" + NumText(dataPrecision.value) + "," + NumText(dataScale.value) + ")"
          else "NUMERIC(" + NumText(dataPrecision.value) + ")"
        else if '(' in u then "NUMERIC" + DS.Params(u)
        else "NUMERIC"
      else if b == "CHAR" || b == "NCHAR" then
        if Positive(dataLength) then "CHAR(" + NumText(dataLength.value) + ")"
        else if '(' in u then "CHAR" + DS.Params(u)
        else "CHAR(1)"
      else if StartsWith(b, "TIMESTAMP") then
        if '(' in u then "TIMESTAMP" + DS.Params(u) else "TIMESTAMP"
      else LookupType(u, b)
  }

  /** NUMBER: NUMERIC(p,s), NUMERIC(p), the written parameters, or plain NUMERIC. */
  lemma NumberSuggestion(oracleType: string, len: Option<int>, p: Option<int>, s: Option<int>)
    requires oracleType != [] && DS.BaseType(UpperTrimmed(oracleType)) == "NUMBER"
    ensures var u := UpperTrimmed(oracleType);
      MapDataType(oracleType, len, p, s) ==
        if Positive(p) && Positive(s) then "NUMERIC(" + NumText(p.value) + "," + NumText(s.value) + ")"
        else if Positive(p) then "NUMERIC(" + NumText(p.value) + ")"
        else if '(' in u then "NUMERIC" + DS.Params(u)
        else "NUMERIC"
  {
  }

  /** CHAR and NCHAR without a length or written parameters default to CHAR(1). */
  lemma CharDefault(oracleType: string, len: Option<int>, p: Option<int>, s: Option<int>)
    requires oracleType != [] && !Positive(len)
    requires var u := UpperTrimmed(oracleType); '(' !in u && (u == "CHAR" || u == "NCHAR")
    ensures MapDataType(oracleType, len, p, s) == "CHAR(1)"
  {
    var u := UpperTrimmed(oracleType);
    assert DS.BaseType(u) == u;
  }

  /** VARCHAR2 and NVARCHAR2 without a length or written parameters become TEXT. */
  lemma VarcharWithoutLength(oracleType: string, len: Option<int>, p: Option<int>, s: Option<int>)
    requires oracleType != [] && !Positive(len)
    requires var u := UpperTrimmed(oracleType); '(' !in u && (u == "VARCHAR2" || u == "NVARCHAR2")
    ensures MapDataType(oracleType, len, p, s) == "TEXT"
  {
    var u := UpperTrimmed(oracleType);
    assert DS.BaseType(u) == u;
  }

  /** A TIMESTAMP type keeps its written parameters. */
  lemma TimestampKeepsParams(oracleType: string, len: Option<int>, p: Option<int>, s: Option<int>)
    requires oracleType != []
    requires var b := DS.BaseType(UpperTrimmed(oracleType));
      StartsWith(b, "TIMESTAMP") && b != "VARCHAR2" && b != "NVARCHAR2" && b != "NUMBER" && b != "CHAR" && b != "NCHAR"
    ensures var u := UpperTrimmed(oracleType);
      MapDataType(oracleType, len, p, s) == "TIMESTAMP" + DS.Params(u)
  {
    var u := UpperTrimmed(oracleType);
    if '(' !in u {
      assert DS.Params(u) == [];
    }
  }

  /**
   * Unlike the back end, which drops them, the front end keeps the
   * parameters written inside a NUMBER type when no precision is given.
   */
  lemma NumberParamsKept(oracleType: string, len: Option<int>, s: Option<int>)
    requires oracleType != [] && DS.BaseType(UpperTrimmed(oracleType)) == "NUMBER"
    requires '(' in UpperTrimmed(oracleType)
    requires DS.BaseOf(oracleType) == "NUMBER"
    ensures MapDataType(oracleType, len, None, s) == "NUMERIC" + DS.Params(UpperTrimmed(oracleType))
    ensures DS.MapDataTypeWithLength(Some(oracleType), len, None, s) == "NUMERIC"
  {
    DS.NumberMapping(oracleType, len, None, s);
  }

  /** A type text without white space at either end: both trims leave it as it is. */
  predicate Untrimmed(oracleType: string)
  {
    var u := Upper(oracleType);
    u != [] && !IsTrimChar(u[0]) && !IsTrimChar(u[|u| - 1]) && !IsScriptSpace(u[0]) && !IsScriptSpace(u[|u| - 1])
  }

  /** VARCHAR2 and NVARCHAR2: the declared length, else the text's own parameters, else TEXT. */
  lemma VarcharSuggestion(oracleType: string, len: Option<int>, p: Option<int>, s: Option<int>)
    requires oracleType != []
    requires var b := DS.BaseType(UpperTrimmed(oracleType)); b == "VARCHAR2" || b == "NVARCHAR2"
    ensures var u := UpperTrimmed(oracleType);
      MapDataType(oracleType, len, p, s) ==
        if Positive(len) then "VARCHAR(" + NumText(len.value) + ")"
        else if '(' in u then "VARCHAR" + DS.Params(u)
        else "TEXT"
  {
  }

  /** CHAR and NCHAR: the declared length, else the text's own parameters, else CHAR(1). */
  lemma CharSuggestion(oracleType: string, len: Option<int>, p: Option<int>, s: Option<int>)
    requires oracleType != []
    requires var b := DS.BaseType(UpperTrimmed(oracleType)); b == "CHAR" || b == "NCHAR"
    ensures var u := UpperTrimmed(oracleType);
      MapDataType(oracleType, len, p, s) ==
        if Positive(len) then "CHAR(" + NumText(len.value) + ")"
        else if '(' in u then "CHAR" + DS.Params(u)
        else "CHAR(1)"
  {
    var b := DS.BaseType(UpperTrimmed(oracleType));
    assert b != "NUMBER" && b != "VARCHAR2" && b != "NVARCHAR2" by { assert |b| <= 5; }
  }

  lemma BothTrimsAgree(oracleType: string)
    requires Untrimmed(oracleType)
    ensures UpperTrimmed(oracleType) == Trim(Upper(oracleType)) == Upper(oracleType)
  {
    TrimOfTrimmed(Upper(oracleType));
  }

  /** For VARCHAR2 and NVARCHAR2 the screen suggests what the back end's mapping answers. */
  lemma VarcharAgreesWithBackend(oracleType: string, len: Option<int>, p: Option<int>, s: Option<int>)
    requires Untrimmed(oracleType)
    requires var b := DS.BaseOf(oracleType); b == "VARCHAR2" || b == "NVARCHAR2"
    ensures MapDataType(oracleType, len, p, s) == DS.MapDataTypeWithLength(Some(oracleType), len, p, s)
  {
    BothTrimsAgree(oracleType);
    VarcharSuggestion(oracleType, len, p, s);
    DS.VarcharMapping(oracleType, len, p, s);
  }

  /** For CHAR and NCHAR the screen suggests what the back end's mapping answers. */
  lemma CharAgreesWithBackend(oracleType: string, len: Option<int>, p: Option<int>, s: Option<int>)
    requires Untrimmed(oracleType)
    requires var b := DS.BaseOf(oracleType); b == "CHAR" || b == "NCHAR"
    ensures MapDataType(oracleType, len, p, s) == DS.MapDataTypeWithLength(Some(oracleType), len, p, s)
  {
    BothTrimsAgree(oracleType);
    CharSuggestion(oracleType, len, p, s);
    DS.CharMapping(oracleType, len, p, s);
  }

  // ---------------------------------------------------------------- parseDataType

  /** The regex class \\w. */
  predicate IsWordChar(c: char) { IsLetterChar(c) || IsDigitChar(c) || c == '_' }

  predicate IsWord(s: string) { s != [] && forall i :: 0 <= i < |s| ==> IsWordChar(s[i]) }

  /** The groups of ^(\\w+)(?:\\((\\d+)(?:,(\\d+))?\\))?$ for a text that matches it. */
  datatype Groups = Groups(word: string, length: Option<string>, scale: Option<string>)

  /** The text inside the parentheses: the length, or the length, a comma and the scale. */
  function ParamText(length: string, scale: Option<string>): string
  {
    match scale
      case None => length
      case Some(b) => length + "," + b
  }

  /** The text a set of groups matches. */
  function Render(g: Groups): string
  {
    match g.length
      case None => g.word
      case Some(a) => g.word + "(" + ParamText(a, g.scale) + ")"
  }

  /** Groups the pattern can capture: a word, then no digits, digits, or digits and digits. */
  predicate WellFormed(g: Groups)
  {
    IsWord(g.word) &&
    (g.length.Some? ==> g.length.value != [] && AllDigits(g.length.value)) &&
    (g.scale.Some? ==> g.length.Some? && g.scale.value != [] && AllDigits(g.scale.value))
  }

  /** The inside of the parentheses: (\d+)(?:,(\d+))? as the whole text. */
  function ParamGroups(inner: string): (r: Option<(string, Option<string>)>)
    ensures r.Some? ==> r.value.0 != [] && AllDigits(r.value.0) && ParamText(r.value.0, r.value.1) == inner
    ensures r.Some? && r.value.1.Some? ==> r.value.1.value != [] && AllDigits(r.value.1.value)
  {
    match IndexOfChar(inner, ',')
      case None => if inner != [] && AllDigits(inner) then Some((inner, None)) else None
      case Some(j) =>
        var a, b := inner[..j], inner[j + 1..];
        assert inner == a + "," + b;
        if a != [] && b != [] && AllDigits(a) && AllDigits(b) then Some((a, Some(b))) else None
  }

  /** Matching the pattern against the whole text. */
  function TypePattern(s: string): (r: Option<Groups>)
    ensures r.Some? ==> WellFormed(r.value) && Render(r.value) == s
  {
    match IndexOfChar(s, '(')
      case None => if IsWord(s) then Some(Groups(s, None, None)) else None
      case Some(k) =>
        var w := s[..k];
        if IsWord(w) && k + 1 < |s| && s[|s| - 1] == ')' then
          var inner := s[k + 1..|s| - 1];
          assert s == w + "(" + inner + ")";
          match ParamGroups(inner)
            case None => None
            case Some(pg) => Some(Groups(w, Some(pg.0), pg.1))
        else None
  }

  lemma ParamGroupsComplete(a: string, scale: Option<string>)
    requires a != [] && AllDigits(a) && (scale.Some? ==> scale.value != [] && AllDigits(scale.value))
    ensures ParamGroups(ParamText(a, scale)) == Some((a, scale))
  {
    DS.DigitsHaveNoComma(a);
    if scale.Some? {
      var b := scale.value;
      DS.FirstCommaAfter(a, b);
      assert (a + "," + b)[..|a|] == a && (a + "," + b)[|a| + 1..] == b;
    }
  }

  lemma WordHasNoParen(w: string)
    requires IsWord(w)
    ensures '(' !in w
  {
    forall i | 0 <= i < |w| ensures w[i] != '(' {
      assert IsWordChar(w[i]);
    }
  }

  /** Every text the pattern describes is matched, with the groups it was built from. */
  lemma TypePatternComplete(g: Groups)
    requires WellFormed(g)
    ensures TypePattern(Render(g)) == Some(g)
  {
    var w := g.word;
    WordHasNoParen(w);
    if g.length.Some? {
      var inner := ParamText(g.length.value, g.scale);
      var s := Render(g);
      assert s == w + ("(" + inner + ")");
      IndexOfCharShift(w, "(" + inner + ")", '(');
      assert s[..|w|] == w;
      assert s[|w| + 1..|s| - 1] == inner;
      ParamGroupsComplete(g.length.value, g.scale);
    }
  }

  /** What parseDataType returns: the base type and the parsed sizes. */
  datatype ParsedType = ParsedType(baseType: string, length: Option<int>, precision: Option<int>, scale: Option<int>)

  function DigitsNumber(d: Option<string>): Option<int>
  {
    if d.Some? && AllDigits(d.value) then Some(DigitsValue(d.value)) else None
  }

  /** parseDataType: precision is the length; a text the pattern misses is the base type as it is. */
  function ParseDataType(dataType: string): ParsedType
  {
    if dataType == [] then ParsedType("TEXT", None, None, None)
    else
      match TypePattern(dataType)
        case Some(g) =>
          var len := DigitsNumber(g.length);
          ParsedType(g.word, len, len, DigitsNumber(g.scale))
        case None => ParsedType(dataType, None, None, None)
  }

  // ---------------------------------------------------------------- formatDataType

  /** formatDataType: the type text written back from a base type and its sizes. */
  function FormatDataType(baseType: string, length: Option<int>, precision: Option<int>, scale: Option<int>): string
  {
    if baseType == "VARCHAR" || baseType == "CHAR" then
      if Positive(length) then baseType + "(" + NumText(length.value) + ")"
      else if baseType == "VARCHAR" then "TEXT" else "CHAR(1)"
    else if baseType == "NUMERIC" then
      if Positive(precision) then
        if Positive(scale) then "NUMERIC(" + NumText(precision.value) + "," + NumText(scale.value) + ")"
        else "NUMERIC(" + NumText(precision.value) + ")"
      else "NUMERIC"
    else if baseType == "TIMESTAMP" && length.Some? && length.value != 0 then
      "TIMESTAMP(" + NumText(length.value) + ")"
    else baseType
  }

  lemma NumberDigits(n: int)
    requires n > 0
    ensures NumText(n) != [] && AllDigits(NumText(n)) && DigitsValue(NumText(n)) == n
  {
    DigitsOfNatToString(n);
  }

  /** Reading back a text the pattern describes gives its word and the values of its digit groups. */
  lemma ParseRendered(g: Groups)
    requires WellFormed(g)
    ensures var len := DigitsNumber(g.length);
      ParseDataType(Render(g)) == ParsedType(g.word, len, len, DigitsNumber(g.scale))
  {
    TypePatternComplete(g);
  }

  /** Writing NUMERIC(p,s) and reading it back gives precision p and scale s. */
  lemma NumericRoundTrip(baseType: string, p: int, s: int)
    requires baseType == "NUMERIC" && p > 0 && s > 0
    ensures ParseDataType(FormatDataType(baseType, Some(p), Some(p), Some(s))) ==
            ParsedType(baseType, Some(p), Some(p), Some(s))
  {
    var a, b := NumText(p), NumText(s);
    NumberDigits(p);
    NumberDigits(s);
    var g := Groups(baseType, Some(a), Some(b));
    assert FormatDataType(baseType, Some(p), Some(p), Some(s)) == Render(g);
    ParseRendered(g);
  }

  /** Writing NUMERIC(p) without a positive scale and reading it back gives precision p and no scale. */
  lemma NumericPrecisionRoundTrip(baseType: string, p: int, s: Option<int>)
    requires baseType == "NUMERIC" && p > 0 && !Positive(s)
    ensures ParseDataType(FormatDataType(baseType, Some(p), Some(p), s)) ==
            ParsedType(baseType, Some(p), Some(p), None)
  {
    var a := NumText(p);
    NumberDigits(p);
    var g := Groups(baseType, Some(a), None);
    assert FormatDataType(baseType, Some(p), Some(p), s) == Render(g);
    ParseRendered(g);
  }

  /** Writing VARCHAR(n) or CHAR(n) and reading it back gives length n. */
  lemma LengthRoundTrip(baseType: string, n: int)
    requires (baseType == "VARCHAR" || baseType == "CHAR") && n > 0
    ensures ParseDataType(FormatDataType(baseType, Some(n), None, None)) ==
            ParsedType(baseType, Some(n), Some(n), None)
  {
    var a := NumText(n);
    NumberDigits(n);
    var g := Groups(baseType, Some(a), None);
    assert FormatDataType(baseType, Some(n), None, None) == Render(g);
    ParseRendered(g);
  }

  /** Without a length, VARCHAR is written as TEXT and CHAR as CHAR(1). */
  lemma FormatDefaults(length: Option<int>, p: Option<int>, s: Option<int>)
    requires !Positive(length)
    ensures FormatDataType("VARCHAR", length, p, s) == "TEXT"
    ensures FormatDataType("CHAR", length, p, s) == "CHAR(1)"
  {
  }

  // ---------------------------------------------------------------- formatSourceDataType

  /** formatSourceDataType: the source type for display, with its sizes when the text has none. */
  function FormatSourceDataType(dataType: string, length: Option<int>, precision: Option<int>, scale: Option<int>): string
  {
    if dataType == [] then ""
    else
      var u := UpperTrimmed(dataType);
      var b := DS.BaseType(u);
      if '(' in u then dataType
      else if b == "VARCHAR2" || b == "NVARCHAR2" || b == "VARCHAR" || b == "CHAR" || b == "NCHAR" then
        if Positive(length) then b + "(" + NumText(length.value) + ")" else b
      else if b == "NUMBER" || b == "NUMERIC" then
        if Positive(precision) then
          if Positive(scale) then b + "(" + NumText(precision.value) + "," + NumText(scale.value) + ")"
          else b + "(" + NumText(precision.value) + ")"
        else b
      else if StartsWith(b, "TIMESTAMP") || b == "DATE" then
        if Positive(scale) then "TIMESTAMP(" + NumText(scale.value) + ")"
        else if Positive(length) then "TIMESTAMP(" + NumText(length.value) + ")"
        else if Positive(precision) then "TIMESTAMP(" + NumText(precision.value) + ")"
        else b
      else dataType
  }

  /** A type that already carries parameters is shown exactly as stored. */
  lemma SourceTypeWithParamsUnchanged(dataType: string, length: Option<int>, precision: Option<int>, scale: Option<int>)
    requires '(' in dataType
    ensures FormatSourceDataType(dataType, length, precision, scale) == dataType
  {
    var k :| 0 <= k < |dataType| && dataType[k] == '(';
    var up := Upper(dataType);
    assert up[k] == '(';
    TrimKeepsChar(up, k);
  }

  /** Trimming never removes a '(' (which is not white space). */
  lemma {:induction false} TrimKeepsChar(s: string, k: int)
    requires 0 <= k < |s| && s[k] == '('
    ensures '(' in ScriptTrim(s)
    decreases |s|
  {
    if IsScriptSpace(s[0]) {
      assert s[1..][k - 1] == '(';
      TrimKeepsChar(s[1..], k - 1);
    } else if IsScriptSpace(s[|s| - 1]) {
      assert s[..|s| - 1][k] == '(';
      TrimKeepsChar(s[..|s| - 1], k);
    }
  }

  /** A timestamp's precision is read from the scale first, then the length, then the precision. */
  lemma SourceTimestampPrecision(dataType: string, length: Option<int>, precision: Option<int>, scale: Option<int>)
    requires dataType != [] && '(' !in UpperTrimmed(dataType)
    requires var b := DS.BaseType(UpperTrimmed(dataType)); b == "DATE" || b == "TIMESTAMP"
    ensures FormatSourceDataType(dataType, length, precision, scale) ==
      if Positive(scale) then "TIMESTAMP(" + NumText(scale.value) + ")"
      else if Positive(length) then "TIMESTAMP(" + NumText(length.value) + ")"
      else if Positive(precision) then "TIMESTAMP(" + NumText(precision.value) + ")"
      else DS.BaseType(UpperTrimmed(dataType))
  {
  }

  // ---------------------------------------------------------------- search

  datatype ViewColumn = ViewColumn(sourceColumn: string, targetColumn: string)

  /** The fields of a table mapping the screen's helpers read. */
  datatype ViewTable = ViewTable(
    id: string,
    sourceTable: string,
    sourceSchema: string,
    targetTable: string,
    targetSchema: string,
    columnMappings: seq<ViewColumn>,
    dropBeforeInsert: Option<bool>,
    truncateBeforeInsert: Option<bool>)

  /** Some column's source or target name contains the lower-cased term. */
  predicate AnyColumnMatches(cols: seq<ViewColumn>, q: string)
  {
    exists i :: 0 <= i < |cols| && (Contains(Lower(cols[i].sourceColumn), q) || Contains(Lower(cols[i].targetColumn), q))
  }

  /** The search predicate: an empty term keeps everything; otherwise names, schemas, qualified names and columns are searched. */
  predicate MatchesSearch(t: ViewTable, searchTerm: string)
  {
    searchTerm == [] ||
    var q := Lower(searchTerm);
    Contains(Lower(t.sourceTable), q) || Contains(Lower(t.sourceSchema), q) ||
    Contains(Lower(t.sourceSchema + "." + t.sourceTable), q) ||
    Contains(Lower(t.targetTable), q) || Contains(Lower(t.targetSchema), q) ||
    Contains(Lower(t.targetSchema + "." + t.targetTable), q) ||
    AnyColumnMatches(t.columnMappings, q)
  }

  /** tables.filter(...): the matching tables in their order. */
  function FilterTables(tables: seq<ViewTable>, searchTerm: string): seq<ViewTable>
  {
    if tables == [] then []
    else
      var rest := FilterTables(tables[..|tables| - 1], searchTerm);
      if MatchesSearch(tables[|tables| - 1], searchTerm) then rest + [tables[|tables| - 1]] else rest
  }

  /** A table is kept exactly when it is one of the input and matches the search. */
  lemma {:induction false} FilterKeepsMatches(tables: seq<ViewTable>, searchTerm: string, t: ViewTable)
    ensures t in FilterTables(tables, searchTerm) <==> t in tables && MatchesSearch(t, searchTerm)
  {
    if tables != [] {
      var init := tables[..|tables| - 1];
      FilterKeepsMatches(init, searchTerm, t);
      assert tables == init + [tables[|tables| - 1]];
    }
  }

  /** The filter never reorders or grows the list. */
  lemma {:induction false} FilterShortens(tables: seq<ViewTable>, searchTerm: string)
    ensures |FilterTables(tables, searchTerm)| <= |tables|
  {
    if tables != [] {
      FilterShortens(tables[..|tables| - 1], searchTerm);
    }
  }

  /** An empty search term keeps every table, in order. */
  lemma {:induction false} EmptySearchKeepsAll(tables: seq<ViewTable>)
    ensures FilterTables(tables, []) == tables
  {
    if tables != [] {
      EmptySearchKeepsAll(tables[..|tables| - 1]);
    }
  }

  // ---------------------------------------------------------------- pagination

  /** Math.ceil(n / perPage), on integers. */
  function TotalPages(n: nat, perPage: nat): nat
    requires perPage > 0
  {
    (n + perPage - 1) / perPage
  }

  /** The page count is the ceiling: enough pages for every row, and no page beyond the last row. */
  lemma TotalPagesIsCeiling(n: nat, perPage: nat)
    requires perPage > 0
    ensures n <= TotalPages(n, perPage) * perPage
    ensures n > 0 ==> (TotalPages(n, perPage) - 1) * perPage < n
    ensures TotalPages(n, perPage) == 0 <==> n == 0
  {
    var t := TotalPages(n, perPage);
    var r := (n + perPage - 1) % perPage;
    assert n + perPage - 1 == t * perPage + r;
  }

  /** Array.prototype.slice's index: counted from the end when negative, clamped to the length. */
  function SliceIndex(i: int, len: nat): (r: nat)
    ensures r <= len
  {
    if i < 0 then (if len + i < 0 then 0 else len + i) else if i < len then i else len
  }

  function ScriptSlice<T>(s: seq<T>, start: int, end: int): seq<T>
  {
    var lo, hi := SliceIndex(start, |s|), SliceIndex(end, |s|);
    if lo < hi then s[lo..hi] else []
  }

  /** The rows of page `page` (startIndex = (page - 1) * perPage, endIndex = startIndex + perPage). */
  function PageRows<T>(rows: seq<T>, page: int, perPage: nat): seq<T>
  {
    var start := (page - 1) * perPage;
    ScriptSlice(rows, start, start + perPage)
  }

  function Min(a: int, b: int): int { if a < b then a else b }

  /** Page p (from 1) is the rows from (p - 1) * perPage up to p * perPage, cut at the end. */
  lemma PageIsRange<T>(rows: seq<T>, page: int, perPage: nat)
    requires page >= 1
    ensures PageRows(rows, page, perPage) ==
      rows[Min((page - 1) * perPage, |rows|)..Min(page * perPage, |rows|)]
  {
    assert (page - 1) * perPage >= 0;
    assert (page - 1) * perPage + perPage == page * perPage;
  }

  /** The pages 1..k, one after another. */
  function FirstPages<T>(rows: seq<T>, k: nat, perPage: nat): seq<T>
  {
    if k == 0 then [] else FirstPages(rows, k - 1, perPage) + PageRows(rows, k, perPage)
  }

  lemma {:induction false} FirstPagesPrefix<T>(rows: seq<T>, k: nat, perPage: nat)
    ensures FirstPages(rows, k, perPage) == rows[..Min(k * perPage, |rows|)]
  {
    if k > 0 {
      FirstPagesPrefix(rows, k - 1, perPage);
      PageIsRange(rows, k, perPage);
      assert (k - 1) * perPage <= k * perPage;
      var a, b := Min((k - 1) * perPage, |rows|), Min(k * perPage, |rows|);
      assert rows[..a] + rows[a..b] == rows[..b];
    }
  }

  /** Read in order, the pages 1..totalPages show every row exactly once. */
  lemma PagesCoverRows<T>(rows: seq<T>, perPage: nat)
    requires perPage > 0
    ensures FirstPages(rows, TotalPages(|rows|, perPage), perPage) == rows
  {
    TotalPagesIsCeiling(|rows|, perPage);
    FirstPagesPrefix(rows, TotalPages(|rows|, perPage), perPage);
  }

  /** The i-th number of the page-number window. */
  function PageNumber(i: int, currentPage: int, totalPages: nat): int
  {
    if totalPages <= 5 then i + 1
    else if currentPage <= 3 then i + 1
    else if currentPage >= totalPages - 2 then totalPages - 4 + i
    else currentPage - 2 + i
  }

  /** Array.from({ length: Math.min(5, totalPages) }, (_, i) => pageNum). */
  function PageWindow(currentPage: int, totalPages: nat): seq<int>
  {
    WindowPrefix(Min(5, totalPages), currentPage, totalPages)
  }

  function WindowPrefix(n: nat, currentPage: int, totalPages: nat): (w: seq<int>)
    ensures |w| == n && forall i :: 0 <= i < n ==> w[i] == PageNumber(i, currentPage, totalPages)
  {
    if n == 0 then [] else WindowPrefix(n - 1, currentPage, totalPages) + [PageNumber(n - 1, currentPage, totalPages)]
  }

  /**
   * Whatever the current page, the window holds min(5, totalPages)
   * consecutive page numbers, all between 1 and totalPages.
   */
  lemma WindowInRange(currentPage: int, totalPages: nat)
    ensures var w := PageWindow(currentPage, totalPages);
      |w| == Min(5, totalPages) &&
      (forall i :: 0 <= i < |w| ==> 1 <= w[i] <= totalPages) &&
      (forall i :: 0 < i < |w| ==> w[i] == w[i - 1] + 1)
  {
  }

  /** The current page is in the window whenever it is a real page. */
  lemma WindowShowsCurrent(currentPage: int, totalPages: nat)
    requires 1 <= currentPage <= totalPages
    ensures currentPage in PageWindow(currentPage, totalPages)
  {
    var w := PageWindow(currentPage, totalPages);
    var i := currentPage - PageNumber(0, currentPage, totalPages);
    assert 0 <= i < |w| && w[i] == currentPage;
  }

  // ---------------------------------------------------------------- drop and truncate

  /** The drop checkbox: sets drop on the tables with the id, clearing truncate when checked. */
  function SetDrop(tables: seq<ViewTable>, id: string, checked: bool): (r: seq<ViewTable>)
    ensures |r| == |tables|
  {
    if tables == [] then []
    else
      var t := tables[|tables| - 1];
      SetDrop(tables[..|tables| - 1], id, checked) +
      [if t.id == id then t.(dropBeforeInsert := Some(checked),
                             truncateBeforeInsert := if checked then Some(false) else t.truncateBeforeInsert)
       else t]
  }

  /** The truncate checkbox: the mirror image of SetDrop. */
  function SetTruncate(tables: seq<ViewTable>, id: string, checked: bool): (r: seq<ViewTable>)
    ensures |r| == |tables|
  {
    if tables == [] then []
    else
      var t := tables[|tables| - 1];
      SetTruncate(tables[..|tables| - 1], id, checked) +
      [if t.id == id then t.(truncateBeforeInsert := Some(checked),
                             dropBeforeInsert := if checked then Some(false) else t.dropBeforeInsert)
       else t]
  }

  predicate NotBoth(t: ViewTable)
  {
    !(t.dropBeforeInsert == Some(true) && t.truncateBeforeInsert == Some(true))
  }

  /** Checking drop clears truncate; the toggled table never has both; other tables are untouched. */
  lemma {:induction false} DropToggle(tables: seq<ViewTable>, id: string, checked: bool)
    ensures var r := SetDrop(tables, id, checked);
      forall i :: 0 <= i < |tables| ==>
        if tables[i].id == id then
          r[i].dropBeforeInsert == Some(checked) && NotBoth(r[i]) &&
          r[i].truncateBeforeInsert == (if checked then Some(false) else tables[i].truncateBeforeInsert)
        else r[i] == tables[i]
  {
    if tables != [] {
      DropToggle(tables[..|tables| - 1], id, checked);
    }
  }

  /** Checking truncate clears drop; the toggled table never has both; other tables are untouched. */
  lemma {:induction false} TruncateToggle(tables: seq<ViewTable>, id: string, checked: bool)
    ensures var r := SetTruncate(tables, id, checked);
      forall i :: 0 <= i < |tables| ==>
        if tables[i].id == id then
          r[i].truncateBeforeInsert == Some(checked) && NotBoth(r[i]) &&
          r[i].dropBeforeInsert == (if checked then Some(false) else tables[i].dropBeforeInsert)
        else r[i] == tables[i]
  {
    if tables != [] {
      TruncateToggle(tables[..|tables| - 1], id, checked);
    }
  }
}
