// DatabaseService's Oracle-to-PostgreSQL type translation: the mapped type
// text, recovering length/precision/scale from it, and the automatic
// table and column mapping built from discovered source tables.

module DatabaseService {
  import opened JavaStr
  import opened Model

  /** The type name before any "(", of the upper-cased, trimmed type text. */
  function BaseType(upperType: string): (b: string)
    ensures |b| <= |upperType| && b == upperType[..|b|]
    ensures '(' !in b
  {
    match IndexOfChar(upperType, '(')
      case None => upperType
      case Some(k) => upperType[..k]
  }

  /** The text from the first "(" on, or "" when there is none. */
  function Params(upperType: string): string
  {
    match IndexOfChar(upperType, '(')
      case None => []
      case Some(k) => upperType[k..]
  }

  function IntText(n: int): string { IntToString(n) }

  predicate Positive(v: Option<int>) { v.Some? && v.value > 0 }

  /** The branch of mapDataTypeWithLength a non-empty type takes, tested in the source's order. */
  datatype OracleKind =
    | NumberKind | VarcharKind | CharKind | TimestampKind | LargeTextKind | DateKind
    | BinaryKind | BfileKind | BinaryFloatKind | DoubleKind | IntegerKind | SmallintKind
    | BooleanKind | RowidKind | UrowidKind | XmlKind | UnknownKind

  function KindOf(upperType: string): OracleKind
  {
    var b := BaseType(upperType);
    if b == "NUMBER" then NumberKind
    else if b == "VARCHAR2" || b == "NVARCHAR2" then VarcharKind
    else if b == "CHAR" || b == "NCHAR" then CharKind
    else if StartsWith(b, "TIMESTAMP") then TimestampKind
    else if b == "CLOB" || b == "NCLOB" || b == "LONG" then LargeTextKind
    else if b == "DATE" then DateKind
    else if b == "BLOB" || b == "RAW" || b == "LONG RAW" || b == "LONGRAW" ||
            Contains(upperType, "LONG RAW") || Contains(upperType, "LONGRAW") then BinaryKind
    else if b == "BFILE" then BfileKind
    else if b == "BINARY_FLOAT" then BinaryFloatKind
    else if b == "BINARY_DOUBLE" || b == "FLOAT" then DoubleKind
    else if b == "INTEGER" || b == "INT" then IntegerKind
    else if b == "SMALLINT" then SmallintKind
    else if b == "BOOLEAN" then BooleanKind
    else if b == "ROWID" then RowidKind
    else if b == "UROWID" then UrowidKind
    else if b == "XMLTYPE" then XmlKind
    else UnknownKind
  }

  /** mapDataTypeWithLength. */
  function MapDataTypeWithLength(oracleType: Option<string>, dataLength: Option<int>,
                                 dataPrecision: Option<int>, dataScale: Option<int>): (r: string)
    ensures r != []
  {
    if oracleType.None? || oracleType.value == [] then "TEXT"
    else MapUpperType(Trim(Upper(oracleType.value)), dataLength, dataPrecision, dataScale)
  }

  /** mapDataTypeWithLength once the type text has been upper-cased and trimmed. */
  function MapUpperType(upperType: string, dataLength: Option<int>,
                        dataPrecision: Option<int>, dataScale: Option<int>): (r: string)
    ensures r != []
  {
      match KindOf(upperType)
        case NumberKind =>
          if Positive(dataPrecision) then
            if Positive(dataScale) then "NUMERIC(" + IntText(dataPrecision.value) + "," + IntText(dataScale.value) + ")"
            else "NUMERIC(" + IntText(dataPrecision.value) + ")"
          else "NUMERIC"
        case VarcharKind =>
          if Positive(dataLength) then "VARCHAR(" + IntText(dataLength.value) + ")"
          else if '(' in upperType then "VARCHAR" + Params(upperType)
          else "TEXT"
        case CharKind =>
          if Positive(dataLength) then "CHAR(" + IntText(dataLength.value) + ")"
          else if '(' in upperType then "CHAR" + Params(upperType)
          else "CHAR(1)"
        case TimestampKind => if '(' in upperType then "TIMESTAMP" + Params(upperType) else "TIMESTAMP"
        case LargeTextKind => "TEXT"
        case DateKind => "TIMESTAMP"
        case BinaryKind => "BYTEA"
        case BfileKind => "BYTEA"
        case BinaryFloatKind => "REAL"
        case DoubleKind => "DOUBLE PRECISION"
        case IntegerKind => "INTEGER"
        case SmallintKind => "SMALLINT"
        case BooleanKind => "BOOLEAN"
        case RowidKind => "VARCHAR(18)"
        case UrowidKind => "VARCHAR(4000)"
        case XmlKind => "XML"
        case UnknownKind => "TEXT"
  }

  function BaseOf(oracleType: string): string
  {
    BaseType(Trim(Upper(oracleType)))
  }

  /** The base names the mapping recognises (TIMESTAMP... is recognised by prefix). */
  predicate KnownBase(b: string)
  {
    b == "NUMBER" || b == "VARCHAR2" || b == "NVARCHAR2" || b == "CHAR" || b == "NCHAR" ||
    b == "CLOB" || b == "NCLOB" || b == "LONG" || b == "DATE" || b == "BLOB" || b == "RAW" ||
    b == "LONG RAW" || b == "LONGRAW" || b == "BFILE" || b == "BINARY_FLOAT" || b == "BINARY_DOUBLE" ||
    b == "FLOAT" || b == "INTEGER" || b == "INT" || b == "SMALLINT" || b == "BOOLEAN" ||
    b == "ROWID" || b == "UROWID" || b == "XMLTYPE" || StartsWith(b, "TIMESTAMP")
  }

  lemma KindBinary(u: string)
    requires var b := BaseType(u); b == "BLOB" || b == "RAW" || b == "LONG RAW" || b == "LONGRAW" || b == "BFILE"
    ensures KindOf(u) == BinaryKind || KindOf(u) == BfileKind
  {
  }

  lemma KindDate(u: string)
    requires BaseType(u) == "DATE"
    ensures KindOf(u) == DateKind
  {
  }

  lemma KindLargeText(u: string)
    requires var b := BaseType(u); b == "CLOB" || b == "NCLOB" || b == "LONG"
    ensures KindOf(u) == LargeTextKind
  {
  }

  lemma KindUnknown(u: string)
    requires !KnownBase(BaseType(u)) && !Contains(u, "LONG RAW") && !Contains(u, "LONGRAW")
    ensures KindOf(u) == UnknownKind
  {
  }

  /** A null or empty type becomes TEXT. */
  lemma MissingTypeIsText(oracleType: Option<string>, len: Option<int>, p: Option<int>, s: Option<int>)
    requires oracleType.None? || oracleType.value == []
    ensures MapDataTypeWithLength(oracleType, len, p, s) == "TEXT"
  {
  }

  lemma UnknownUpperIsText(u: string, len: Option<int>, p: Option<int>, s: Option<int>)
    requires !KnownBase(BaseType(u)) && !Contains(u, "LONG RAW") && !Contains(u, "LONGRAW")
    ensures MapUpperType(u, len, p, s) == "TEXT"
  {
    KindUnknown(u);
  }

  /** Any type the mapping does not recognise becomes TEXT. */
  lemma UnknownTypeIsText(oracleType: string, len: Option<int>, p: Option<int>, s: Option<int>)
    requires oracleType != []
    requires var u := Trim(Upper(oracleType));
      !KnownBase(BaseType(u)) && !Contains(u, "LONG RAW") && !Contains(u, "LONGRAW")
    ensures MapDataTypeWithLength(Some(oracleType), len, p, s) == "TEXT"
  {
    UnknownUpperIsText(Trim(Upper(oracleType)), len, p, s);
  }

  /**
   * NUMBER becomes NUMERIC(p,s) with a positive precision and scale,
   * NUMERIC(p) with only a positive precision, and NUMERIC otherwise;
   * parameters written in the type text play no part.
   */
  lemma NumberMapping(oracleType: string, len: Option<int>, p: Option<int>, s: Option<int>)
    requires oracleType != [] && BaseOf(oracleType) == "NUMBER"
    ensures MapDataTypeWithLength(Some(oracleType), len, p, s) ==
      if Positive(p) && Positive(s) then "NUMERIC(" + IntText(p.value) + "," + IntText(s.value) + ")"
      else if Positive(p) then "NUMERIC(" + IntText(p.value) + ")"
      else "NUMERIC"
  {
    var u := Trim(Upper(oracleType));
    assert KindOf(u) == NumberKind;
    NumberUpper(u, len, p, s);
  }

  lemma NumberUpper(u: string, len: Option<int>, p: Option<int>, s: Option<int>)
    requires KindOf(u) == NumberKind
    ensures MapUpperType(u, len, p, s) ==
      if Positive(p) && Positive(s) then "NUMERIC(" + IntText(p.value) + "," + IntText(s.value) + ")"
      else if Positive(p) then "NUMERIC(" + IntText(p.value) + ")"
      else "NUMERIC"
  {
  }

  /** VARCHAR2 and NVARCHAR2: the declared length, else the text's own parameters, else TEXT. */
  lemma VarcharMapping(oracleType: string, len: Option<int>, p: Option<int>, s: Option<int>)
    requires oracleType != [] && (BaseOf(oracleType) == "VARCHAR2" || BaseOf(oracleType) == "NVARCHAR2")
    ensures var u := Trim(Upper(oracleType));
      MapDataTypeWithLength(Some(oracleType), len, p, s) ==
        if Positive(len) then "VARCHAR(" + IntText(len.value) + ")"
        else if '(' in u then "VARCHAR" + Params(u)
        else "TEXT"
  {
    var u := Trim(Upper(oracleType));
    KindVarchar(u);
    VarcharUpper(u, len, p, s);
  }

  lemma KindVarchar(u: string)
    requires BaseType(u) == "VARCHAR2" || BaseType(u) == "NVARCHAR2"
    ensures KindOf(u) == VarcharKind
  {
    var b := BaseType(u);
    assert b != "NUMBER" by { assert |b| != 6; }
  }

  lemma VarcharUpper(u: string, len: Option<int>, p: Option<int>, s: Option<int>)
    requires KindOf(u) == VarcharKind
    ensures MapUpperType(u, len, p, s) ==
      if Positive(len) then "VARCHAR(" + IntText(len.value) + ")"
      else if '(' in u then "VARCHAR" + Params(u)
      else "TEXT"
  {
  }

  /** CHAR and NCHAR: the declared length, else the text's own parameters, else CHAR(1). */
  lemma CharMapping(oracleType: string, len: Option<int>, p: Option<int>, s: Option<int>)
    requires oracleType != [] && (BaseOf(oracleType) == "CHAR" || BaseOf(oracleType) == "NCHAR")
    ensures var u := Trim(Upper(oracleType));
      MapDataTypeWithLength(Some(oracleType), len, p, s) ==
        if Positive(len) then "CHAR(" + IntText(len.value) + ")"
        else if '(' in u then "CHAR" + Params(u)
        else "CHAR(1)"
  {
    var u := Trim(Upper(oracleType));
    KindChar(u);
    CharUpper(u, len, p, s);
  }

  lemma KindChar(u: string)
    requires BaseType(u) == "CHAR" || BaseType(u) == "NCHAR"
    ensures KindOf(u) == CharKind
  {
    var b := BaseType(u);
    assert b != "NUMBER" && b != "VARCHAR2" && b != "NVARCHAR2" by { assert |b| < 6; }
  }

  lemma CharUpper(u: string, len: Option<int>, p: Option<int>, s: Option<int>)
    requires KindOf(u) == CharKind
    ensures MapUpperType(u, len, p, s) ==
      if Positive(len) then "CHAR(" + IntText(len.value) + ")"
      else if '(' in u then "CHAR" + Params(u)
      else "CHAR(1)"
  {
  }

  /** BLOB, RAW, LONG RAW and BFILE become BYTEA. */
  lemma BinaryMapping(oracleType: string, len: Option<int>, p: Option<int>, s: Option<int>)
    requires oracleType != []
    requires var b := BaseOf(oracleType);
      b == "BLOB" || b == "RAW" || b == "LONG RAW" || b == "LONGRAW" || b == "BFILE"
    ensures MapDataTypeWithLength(Some(oracleType), len, p, s) == "BYTEA"
  {
    KindBinary(Trim(Upper(oracleType)));
  }

  /** DATE becomes TIMESTAMP. */
  lemma DateMapping(oracleType: string, len: Option<int>, p: Option<int>, s: Option<int>)
    requires oracleType != [] && BaseOf(oracleType) == "DATE"
    ensures MapDataTypeWithLength(Some(oracleType), len, p, s) == "TIMESTAMP"
  {
    KindDate(Trim(Upper(oracleType)));
  }

  /** CLOB, NCLOB and LONG become TEXT. */
  lemma LargeTextMapping(oracleType: string, len: Option<int>, p: Option<int>, s: Option<int>)
    requires oracleType != []
    requires var b := BaseOf(oracleType); b == "CLOB" || b == "NCLOB" || b == "LONG"
    ensures MapDataTypeWithLength(Some(oracleType), len, p, s) == "TEXT"
  {
    KindLargeText(Trim(Upper(oracleType)));
  }

  // ------------------------------------------------------------ extractTargetTypeInfo

  /**
   * The digits of a text that is exactly `open` (a type name and its "("),
   * then digits, then ")": what the regex NAME\((\d+)\) captures.
   */
  function ParenDigits(s: string, open: string): (r: Option<string>)
    ensures r.Some? ==> r.value != [] && AllDigits(r.value) && s == open + r.value + ")"
  {
    if |s| > |open| && StartsWith(s, open) && s[|s| - 1] == ')' then
      var mid := s[|open|..|s| - 1];
      if mid != [] && AllDigits(mid) then
        assert s == open + mid + ")";
        Some(mid)
      else None
    else None
  }

  /** "NUMERIC(d+,d+)" as the whole text: the two digit groups. */
  function NumericPair(s: string): (r: Option<(string, string)>)
    ensures r.Some? ==> r.value.0 != [] && r.value.1 != [] && AllDigits(r.value.0) && AllDigits(r.value.1) &&
                        s == "NUMERIC(" + r.value.0 + "," + r.value.1 + ")"
  {
    var open := "NUMERIC(";
    if |s| > |open| && StartsWith(s, open) && s[|s| - 1] == ')' then
      var mid := s[|open|..|s| - 1];
      match IndexOfChar(mid, ',')
        case None => None
        case Some(k) =>
          var a, b := mid[..k], mid[k + 1..];
          if a != [] && b != [] && AllDigits(a) && AllDigits(b) then
            BracketedPair(s, open, k);
            Some((a, b))
          else None
    else None
  }

  /** open, a middle with a comma at k, and ")": the parts before and after that comma. */
  lemma BracketedPair(s: string, open: string, k: nat)
    requires |s| > |open| && StartsWith(s, open) && s[|s| - 1] == ')'
    requires k < |s| - 1 - |open| && s[|open| + k] == ','
    ensures var mid := s[|open|..|s| - 1];
            s == open + mid[..k] + "," + mid[k + 1..] + ")"
  {
    var mid := s[|open|..|s| - 1];
    assert s == open + mid + ")";
    assert mid == mid[..k] + "," + mid[k + 1..];
  }

  /** The column mapping with only its three target size fields replaced. */
  function WithSizes(cm: ColumnMapping, len: Option<int>, p: Option<int>, s: Option<int>): ColumnMapping
  {
    cm.(targetDataLength := len, targetDataPrecision := p, targetDataScale := s)
  }

  /**
   * extractTargetTypeInfo: the length from exactly VARCHAR(n) or CHAR(n),
   * the precision and scale from exactly NUMERIC(p,s) or NUMERIC(p); other
   * fields untouched. None where Integer.parseInt overflows.
   */
  function ExtractTargetTypeInfo(dataType: Option<string>, cm: ColumnMapping): (r: Option<ColumnMapping>)
    ensures r.Some? ==> r.value == WithSizes(cm, r.value.targetDataLength, r.value.targetDataPrecision,
                                             r.value.targetDataScale)
    ensures dataType.None? || dataType.value == [] ==> r == Some(cm)
  {
    if dataType.None? || dataType.value == [] then Some(cm)
    else
      var t := dataType.value;
      var withLength :=
        if ParenDigits(t, "VARCHAR(").Some? then
          match ParseInt(ParenDigits(t, "VARCHAR(").value)
            case None => None
            case Some(n) => Some(cm.(targetDataLength := Some(n)))
        else if ParenDigits(t, "CHAR(").Some? then
          match ParseInt(ParenDigits(t, "CHAR(").value)
            case None => None
            case Some(n) => Some(cm.(targetDataLength := Some(n)))
        else Some(cm);
      match withLength
        case None => None
        case Some(c) =>
          if NumericPair(t).Some? then
            match (ParseInt(NumericPair(t).value.0), ParseInt(NumericPair(t).value.1))
              case (Some(p), Some(s)) => Some(c.(targetDataPrecision := Some(p), targetDataScale := Some(s)))
              case _ => None
          else if ParenDigits(t, "NUMERIC(").Some? then
            match ParseInt(ParenDigits(t, "NUMERIC(").value)
              case None => None
              case Some(p) => Some(c.(targetDataPrecision := Some(p)))
          else Some(c)
  }

  /** The digits of "PREFIX(n)" are found again. */
  lemma ParenDigitsOf(open: string, d: string)
    requires d != [] && AllDigits(d)
    ensures ParenDigits(open + d + ")", open) == Some(d)
  {
    var s := open + d + ")";
    assert s[..|open|] == open;
    assert s[|open|..|s| - 1] == d;
  }

  /** The first comma of a + "," + b, when a has none, is the one after a. */
  lemma {:induction false} FirstCommaAfter(a: string, b: string)
    requires ',' !in a
    ensures IndexOfChar(a + "," + b, ',') == Some(|a|)
  {
    if a != [] {
      assert (a + "," + b)[1..] == a[1..] + "," + b;
      assert a[0] != ',';
      FirstCommaAfter(a[1..], b);
    }
  }

  lemma DigitsHaveNoComma(d: string)
    requires AllDigits(d)
    ensures ',' !in d
  {
    forall i | 0 <= i < |d| ensures d[i] != ',' {
      assert IsDigitChar(d[i]);
    }
  }

  lemma NumericPairOf(a: string, b: string)
    requires a != [] && b != [] && AllDigits(a) && AllDigits(b)
    ensures NumericPair("NUMERIC(" + a + "," + b + ")") == Some((a, b))
  {
    var s := "NUMERIC(" + a + "," + b + ")";
    var mid := s[8..|s| - 1];
    assert s[..8] == "NUMERIC(";
    assert mid == a + "," + b;
    DigitsHaveNoComma(a);
    FirstCommaAfter(a, b);
    assert mid[..|a|] == a && mid[|a| + 1..] == b;
  }

  /** ParenDigits of one prefix misses text that starts with another letter. */
  lemma ParenDigitsFirstLetter(s: string, open: string)
    requires open != [] && s != [] && s[0] != open[0]
    ensures ParenDigits(s, open).None?
  {
    if |open| <= |s| {
      assert s[..|open|][0] != open[0];
    }
  }

  lemma NumericPairFirstLetter(s: string)
    requires s != [] && s[0] != 'N'
    ensures NumericPair(s).None?
  {
    if 8 <= |s| {
      assert s[..8][0] != "NUMERIC("[0];
    }
  }

  /** Reading NUMERIC(p,s) recovers precision and scale. */
  lemma ExtractNumericPair(cm: ColumnMapping, p: nat, q: nat)
    requires p <= INT_MAX && q <= INT_MAX
    ensures ExtractTargetTypeInfo(Some("NUMERIC(" + IntText(p) + "," + IntText(q) + ")"), cm) ==
            Some(cm.(targetDataPrecision := Some(p), targetDataScale := Some(q)))
  {
    var t := "NUMERIC(" + IntText(p) + "," + IntText(q) + ")";
    assert t[0] == 'N';
    ParenDigitsFirstLetter(t, "VARCHAR(");
    ParenDigitsFirstLetter(t, "CHAR(");
    NumericPairOf(IntText(p), IntText(q));
    ParseIntOfIntToString(p);
    ParseIntOfIntToString(q);
  }

  /** Reading NUMERIC(p) recovers the precision. */
  lemma ExtractNumeric(cm: ColumnMapping, p: nat)
    requires p <= INT_MAX
    ensures ExtractTargetTypeInfo(Some("NUMERIC(" + IntText(p) + ")"), cm) ==
            Some(cm.(targetDataPrecision := Some(p)))
  {
    var d := IntText(p);
    var t := "NUMERIC(" + d + ")";
    assert t[0] == 'N';
    ParenDigitsFirstLetter(t, "VARCHAR(");
    ParenDigitsFirstLetter(t, "CHAR(");
    ParenDigitsOf("NUMERIC(", d);
    assert NumericPair(t).None? by {
      assert t[..8] == "NUMERIC(";
      assert t[8..|t| - 1] == d;
      DigitsHaveNoComma(d);
    }
    ParseIntOfIntToString(p);
  }

  /** Reading VARCHAR(n) or CHAR(n) recovers the length. */
  lemma ExtractLength(cm: ColumnMapping, open: string, n: nat)
    requires open == "VARCHAR(" || open == "CHAR("
    requires n <= INT_MAX
    ensures ExtractTargetTypeInfo(Some(open + IntText(n) + ")"), cm) ==
            Some(cm.(targetDataLength := Some(n)))
  {
    var d := IntText(n);
    var t := open + d + ")";
    assert t[0] == open[0];
    ParenDigitsOf(open, d);
    if open == "CHAR(" { ParenDigitsFirstLetter(t, "VARCHAR("); }
    NumericPairFirstLetter(t);
    ParenDigitsFirstLetter(t, "NUMERIC(");
    ParseIntOfIntToString(n);
  }

  /**
   * Reading the mapped type of a NUMBER back recovers its precision, and its
   * scale when that is positive.
   */
  lemma ExtractInvertsNumber(cm: ColumnMapping, oracleType: string, len: Option<int>, p: Option<int>, s: Option<int>)
    requires oracleType != [] && BaseOf(oracleType) == "NUMBER"
    requires Positive(p) && p.value <= INT_MAX
    requires s.Some? ==> s.value <= INT_MAX
    ensures ExtractTargetTypeInfo(Some(MapDataTypeWithLength(Some(oracleType), len, p, s)), cm) ==
            Some(if Positive(s) then cm.(targetDataPrecision := p, targetDataScale := s)
                 else cm.(targetDataPrecision := p))
  {
    NumberMapping(oracleType, len, p, s);
    if Positive(s) { ExtractNumericPair(cm, p.value, s.value); }
    else { ExtractNumeric(cm, p.value); }
  }

  /** Reading the mapped type of a VARCHAR2 or CHAR back recovers its declared length. */
  lemma ExtractInvertsLength(cm: ColumnMapping, oracleType: string, len: Option<int>, p: Option<int>, s: Option<int>)
    requires oracleType != []
    requires var b := BaseOf(oracleType); b == "VARCHAR2" || b == "NVARCHAR2" || b == "CHAR" || b == "NCHAR"
    requires Positive(len) && len.value <= INT_MAX
    ensures ExtractTargetTypeInfo(Some(MapDataTypeWithLength(Some(oracleType), len, p, s)), cm) ==
            Some(cm.(targetDataLength := len))
  {
    var b := BaseOf(oracleType);
    if b == "VARCHAR2" || b == "NVARCHAR2" {
      VarcharMapping(oracleType, len, p, s);
      ExtractLength(cm, "VARCHAR(", len.value);
    } else {
      CharMapping(oracleType, len, p, s);
      ExtractLength(cm, "CHAR(", len.value);
    }
  }

  // ------------------------------------------------------------ autoMapTables

  /** One discovered column as autoMapTables maps it; None where the source throws. */
  function AutoMapColumn(col: ColumnInfo): Option<ColumnMapping>
  {
    if col.columnName.None? then None
    else
      var mapped := MapDataTypeWithLength(col.dataType, col.dataLength, col.dataPrecision, col.dataScale);
      var base := ColumnMapping(
        None, col.columnName, col.dataType, col.dataLength, col.dataPrecision, col.dataScale,
        Some(Lower(col.columnName.value)), Some(mapped), None, None, None, None,
        None, None, None);
      match ExtractTargetTypeInfo(Some(mapped), base)
        case None => None
        case Some(c) =>
          Some(c.(nullable := col.nullable,
                  isPrimaryKey := Some(col.isPrimaryKey == Some(true)),
                  isForeignKey := Some(col.isForeignKey == Some(true))))
  }

  function AutoMapColumns(cols: seq<ColumnInfo>): Option<seq<ColumnMapping>>
  {
    if cols == [] then Some([])
    else match (AutoMapColumns(cols[..|cols| - 1]), AutoMapColumn(cols[|cols| - 1]))
      case (Some(init), Some(c)) => Some(init + [c])
      case _ => None
  }

  /** One discovered table as a new mapping: enabled, pending, named in lower case. */
  function AutoMapTable(t: TableInfo, targetSchema: Option<string>): Option<TableMapping>
  {
    if t.tableName.None? || t.columns.None? then None
    else match AutoMapColumns(t.columns.value)
      case None => None
      case Some(cms) =>
        Some(TableMapping(None, t.tableName, t.schema, Some(Lower(t.tableName.value)),
                          Some(if targetSchema.Some? then targetSchema.value else "public"),
                          Some(true), Some(cms), Some("pending"),
                          None, None, None, None, None, None, None, None))
  }

  function AutoMapAll(tables: seq<TableInfo>, targetSchema: Option<string>): Option<seq<TableMapping>>
  {
    if tables == [] then Some([])
    else match (AutoMapAll(tables[..|tables| - 1], targetSchema), AutoMapTable(tables[|tables| - 1], targetSchema))
      case (Some(init), Some(m)) => Some(init + [m])
      case _ => None
  }

  /** The inner loop of autoMapTables over one table's columns. */
  method MapColumns(cols: seq<ColumnInfo>) returns (r: Option<seq<ColumnMapping>>)
    ensures r == AutoMapColumns(cols)
  {
    var acc: seq<ColumnMapping> := [];
    var i := 0;
    while i < |cols|
      invariant 0 <= i <= |cols|
      invariant AutoMapColumns(cols[..i]) == Some(acc)
    {
      assert cols[..i + 1][..i] == cols[..i];
      var c := AutoMapColumn(cols[i]);
      if c.None? {
        AutoMapColumnsPrefix(cols, i + 1);
        return None;
      }
      acc := acc + [c.value];
      i := i + 1;
    }
    assert cols[..i] == cols;
    r := Some(acc);
  }

  /** autoMapTables: the outer loop over the discovered tables. */
  method AutoMapTables(tables: seq<TableInfo>, targetSchema: Option<string>) returns (r: Option<seq<TableMapping>>)
    ensures r == AutoMapAll(tables, targetSchema)
  {
    var mappings: seq<TableMapping> := [];
    var i := 0;
    while i < |tables|
      invariant 0 <= i <= |tables|
      invariant AutoMapAll(tables[..i], targetSchema) == Some(mappings)
    {
      assert tables[..i + 1][..i] == tables[..i];
      var t := tables[i];
      if t.tableName.None? || t.columns.None? {
        AutoMapAllPrefix(tables, targetSchema, i + 1);
        return None;
      }
      var cms := MapColumns(t.columns.value);
      if cms.None? {
        AutoMapAllPrefix(tables, targetSchema, i + 1);
        return None;
      }
      var m := TableMapping(None, t.tableName, t.schema, Some(Lower(t.tableName.value)),
                            Some(if targetSchema.Some? then targetSchema.value else "public"),
                            Some(true), cms, Some("pending"),
                            None, None, None, None, None, None, None, None);
      mappings := mappings + [m];
      i := i + 1;
    }
    assert tables[..i] == tables;
    r := Some(mappings);
  }

  lemma {:induction false} AutoMapColumnsPrefix(cols: seq<ColumnInfo>, n: nat)
    requires n <= |cols| && AutoMapColumns(cols[..n]).None?
    ensures AutoMapColumns(cols).None?
    decreases |cols|
  {
    if n < |cols| {
      assert cols[..|cols| - 1][..n] == cols[..n];
      AutoMapColumnsPrefix(cols[..|cols| - 1], n);
    } else {
      assert cols[..n] == cols;
    }
  }

  lemma {:induction false} AutoMapAllPrefix(tables: seq<TableInfo>, targetSchema: Option<string>, n: nat)
    requires n <= |tables| && AutoMapAll(tables[..n], targetSchema).None?
    ensures AutoMapAll(tables, targetSchema).None?
    decreases |tables|
  {
    if n < |tables| {
      assert tables[..|tables| - 1][..n] == tables[..n];
      AutoMapAllPrefix(tables[..|tables| - 1], targetSchema, n);
    } else {
      assert tables[..n] == tables;
    }
  }

  /** One column's mapping: lower-case target, mapped type, PK/FK false when unknown. */
  predicate AutoMapped(c: ColumnInfo, m: ColumnMapping)
  {
    c.columnName.Some? &&
    m.sourceColumn == c.columnName &&
    m.sourceDataType == c.dataType &&
    m.targetColumn == Some(Lower(c.columnName.value)) &&
    m.targetDataType == Some(MapDataTypeWithLength(c.dataType, c.dataLength, c.dataPrecision, c.dataScale)) &&
    m.nullable == c.nullable &&
    m.isPrimaryKey == Some(c.isPrimaryKey == Some(true)) &&
    m.isForeignKey == Some(c.isForeignKey == Some(true))
  }

  lemma AutoMapColumnShape(c: ColumnInfo)
    requires AutoMapColumn(c).Some?
    ensures AutoMapped(c, AutoMapColumn(c).value)
  {
  }

  /** Column by column, in order: each discovered column gives its own mapping. */
  lemma {:induction false} AutoMapColumnsShape(cols: seq<ColumnInfo>)
    requires AutoMapColumns(cols).Some?
    ensures |AutoMapColumns(cols).value| == |cols|
    ensures forall i :: 0 <= i < |cols| ==> AutoMapped(cols[i], AutoMapColumns(cols).value[i])
    decreases |cols|
  {
    if cols != [] {
      var init, last := cols[..|cols| - 1], cols[|cols| - 1];
      AutoMapColumnsShape(init);
      var a, m := AutoMapColumns(init).value, AutoMapColumn(last).value;
      assert AutoMapColumns(cols).value == a + [m];
      AutoMapColumnShape(last);
      forall i | 0 <= i < |cols| ensures AutoMapped(cols[i], (a + [m])[i]) {
        if i < |cols| - 1 {
          assert cols[i] == init[i] && (a + [m])[i] == a[i];
        }
      }
    }
  }

  /** One table's mapping: lower-case target name, schema defaulting to public, enabled and pending. */
  predicate TableAutoMapped(t: TableInfo, targetSchema: Option<string>, m: TableMapping)
  {
    t.tableName.Some? && t.columns.Some? &&
    m.sourceTable == t.tableName &&
    m.sourceSchema == t.schema &&
    m.targetTable == Some(Lower(t.tableName.value)) &&
    m.targetSchema == Some(if targetSchema.Some? then targetSchema.value else "public") &&
    m.enabled == Some(true) && m.status == Some("pending") &&
    m.columnMappings == AutoMapColumns(t.columns.value)
  }

  /** Table by table, in order: each discovered table gives its own mapping. */
  lemma {:induction false} AutoMapAllShape(tables: seq<TableInfo>, targetSchema: Option<string>)
    requires AutoMapAll(tables, targetSchema).Some?
    ensures |AutoMapAll(tables, targetSchema).value| == |tables|
    ensures forall i :: 0 <= i < |tables| ==> TableAutoMapped(tables[i], targetSchema, AutoMapAll(tables, targetSchema).value[i])
    decreases |tables|
  {
    if tables != [] {
      var init, last := tables[..|tables| - 1], tables[|tables| - 1];
      AutoMapAllShape(init, targetSchema);
      var a, m := AutoMapAll(init, targetSchema).value, AutoMapTable(last, targetSchema).value;
      assert AutoMapAll(tables, targetSchema).value == a + [m];
      assert TableAutoMapped(last, targetSchema, m);
      forall i | 0 <= i < |tables| ensures TableAutoMapped(tables[i], targetSchema, (a + [m])[i]) {
        if i < |tables| - 1 {
          assert tables[i] == init[i] && (a + [m])[i] == a[i];
        }
      }
    }
  }
}
