// The data validation service: row-count and checksum comparison between the
// source and the target of each table mapping, and the dry-run report. What
// the databases answer (row counts, column catalogues, result-set cells,
// digests) is an input; the digest itself is left out, the text it is taken
// over is modelled.

module DataValidationService {
  import opened JavaStr
  import opened Base16
  import opened QuotedNames
  import opened Lists
  import opened Model

  // ---------------------------------------------------------------- binary values

  /** bytesToHex: "NULL" for a null array, otherwise two lower-case digits per byte. */
  function HexOrNull(bytes: Option<seq<JByte>>): (r: string)
    ensures bytes.Some? ==> |r| == 2 * |bytes.value|
  {
    if bytes.None? then "NULL" else Encode(bytes.value)
  }

  /** The StringBuilder loop of bytesToHex. */
  method BytesToHex(bytes: Option<seq<JByte>>) returns (hex: string)
    ensures hex == HexOrNull(bytes)
  {
    if bytes.None? {
      return "NULL";
    }
    var bs := bytes.value;
    hex := "";
    var i := 0;
    while i < |bs|
      invariant 0 <= i <= |bs|
      invariant hex == Encode(bs[..i])
    {
      assert bs[..i + 1][..i] == bs[..i];
      hex := hex + ByteHex(bs[i]);
      i := i + 1;
    }
    assert bs[..i] == bs;
  }

  /** The migration service's hex reader gives back every array bytesToHex wrote. */
  lemma HexOrNullDecodes(bytes: seq<JByte>)
    ensures DecodePairs(Normalize(HexOrNull(Some(bytes)))) == bytes
  {
    RoundTrip(bytes);
  }

  /** The null marker is never the text of an array: 'N' is not a lower-case hex digit. */
  lemma HexNeverNullMarker(bytes: seq<JByte>)
    ensures HexOrNull(Some(bytes)) != "NULL"
  {
    var e := Encode(bytes);
    assert |e| == 0 || !IsUpperChar(e[0]);
  }

  /** isBinaryType: the upper-cased type mentions RAW, BLOB or BINARY, or is BYTEA. */
  predicate IsBinaryType(dataType: Option<string>)
  {
    dataType.Some? &&
    var upper := Upper(dataType.value);
    Contains(upper, "RAW") || Contains(upper, "BLOB") || upper == "BYTEA" || Contains(upper, "BINARY")
  }

  /** The test ignores case: a type and its upper- and lower-cased forms agree. */
  lemma IsBinaryTypeIgnoresCase(t: string)
    ensures IsBinaryType(Some(Upper(t))) == IsBinaryType(Some(t))
    ensures IsBinaryType(Some(Lower(t))) == IsBinaryType(Some(t))
  {
    UpperIdempotent(t);
    UpperOfLower(t);
  }

  lemma ContainsLongRaw(s: string)
    requires Contains(s, "LONG RAW")
    ensures Contains(s, "RAW") && Contains(s, "LONG")
  {
    var i :| 0 <= i <= |s| - 8 && OccursAt(s, "LONG RAW", i);
    assert s[i..i + 8] == "LONG RAW";
    assert s[i + 5..i + 8] == s[i..i + 8][5..8] == "RAW";
    assert s[i..i + 4] == s[i..i + 8][..4] == "LONG";
    assert OccursAt(s, "RAW", i + 5) && OccursAt(s, "LONG", i);
  }

  // ---------------------------------------------------------------- checksum plan

  predicate IsOracle(dbType: Option<string>)
  {
    dbType.Some? && EqualsIgnoreCase(dbType.value, "oracle")
  }

  /** How calculateTableChecksum selects and reads one column. */
  datatype ColumnRead =
    | BytesFetched   // selected as is, read with getBytes and hex-encoded by bytesToHex
    | RawToHex       // RAWTOHEX(col), read as text
    | EncodeHex      // encode(col, 'hex'), read as text
    | LongText       // an Oracle LONG, selected as is
    | DateText       // NVL(TO_CHAR(col, 'YYYY-MM-DD HH24:MI:SS'), 'NULL')
    | CharText       // NVL(TO_CHAR(col), 'NULL'), for CLOB and numeric types
    | NvlText        // NVL(col, 'NULL')
    | CoalesceText   // COALESCE(col::text, 'NULL')

  /**
   * The branches on the upper-cased declared type. The source's first Oracle
   * test, equals("LONG RAW") || contains("LONG RAW"), is the contains test.
   */
  function ColumnReadOf(oracle: bool, upper: string): ColumnRead
  {
    if IsBinaryType(Some(upper)) then
      if !oracle then EncodeHex
      else if Contains(upper, "LONG RAW") then BytesFetched
      else if Contains(upper, "RAW") && !Contains(upper, "LONG") then RawToHex
      else if Contains(upper, "BLOB") then BytesFetched
      else RawToHex
    else if !oracle then CoalesceText
    else if upper == "LONG" then LongText
    else if Contains(upper, "DATE") || Contains(upper, "TIMESTAMP") then DateText
    else if Contains(upper, "CLOB") then CharText
    else if Contains(upper, "NUMBER") || Contains(upper, "NUMERIC") || Contains(upper, "INTEGER") || Contains(upper, "FLOAT") then CharText
    else NvlText
  }

  const NULL_DEFAULT := ", 'NULL')"

  /** The select-list expression for a column read as kind says. */
  function ReadExpression(kind: ColumnRead, col: string): (r: string)
    ensures kind.BytesFetched? || kind.LongText? ==> r == col
    ensures kind.DateText? || kind.CharText? || kind.NvlText? || kind.CoalesceText? ==> EndsWith(r, NULL_DEFAULT)
  {
    match kind
      case BytesFetched => col
      case LongText => col
      case RawToHex => "RAWTOHEX(" + col + ")"
      case EncodeHex => "encode(" + col + ", 'hex')"
      case DateText =>
        SuffixOfAppend("NVL(TO_CHAR(" + col + ", 'YYYY-MM-DD HH24:MI:SS')", NULL_DEFAULT);
        "NVL(TO_CHAR(" + col + ", 'YYYY-MM-DD HH24:MI:SS')" + NULL_DEFAULT
      case CharText =>
        SuffixOfAppend("NVL(TO_CHAR(" + col + ")", NULL_DEFAULT);
        "NVL(TO_CHAR(" + col + ")" + NULL_DEFAULT
      case NvlText =>
        SuffixOfAppend("NVL(" + col, NULL_DEFAULT);
        "NVL(" + col + NULL_DEFAULT
      case CoalesceText =>
        SuffixOfAppend("COALESCE(" + col + "::text", NULL_DEFAULT);
        "COALESCE(" + col + "::text" + NULL_DEFAULT
  }

  /** On PostgreSQL nothing is read as bytes: binary columns are hex-encoded in SQL, the rest cast to text. */
  lemma PostgresReadsText(upper: string)
    ensures ColumnReadOf(false, upper) == (if IsBinaryType(Some(upper)) then EncodeHex else CoalesceText)
  {
  }

  /** Only Oracle LONG RAW and BLOB columns are fetched as bytes, and every one of those is. */
  lemma BytesFetchedIff(t: string)
    ensures var upper := Upper(t);
            ColumnReadOf(true, upper) == BytesFetched <==>
              Contains(upper, "LONG RAW") || (Contains(upper, "BLOB") && !(Contains(upper, "RAW") && !Contains(upper, "LONG")))
  {
    var upper := Upper(t);
    UpperIdempotent(t);
    if Contains(upper, "LONG RAW") {
      ContainsLongRaw(upper);
    }
  }

  /** getOrDefault on the catalogue's LinkedHashMap: the type put last for the name, or "". */
  function CatalogueType(catalogue: seq<(string, string)>, name: string): string
  {
    if catalogue == [] then ""
    else if catalogue[|catalogue| - 1].0 == name then catalogue[|catalogue| - 1].1
    else CatalogueType(catalogue[..|catalogue| - 1], name)
  }

  function CatalogueNames(catalogue: seq<(string, string)>): (r: seq<string>)
    ensures |r| == |catalogue|
  {
    if catalogue == [] then [] else CatalogueNames(catalogue[..|catalogue| - 1]) + [catalogue[|catalogue| - 1].0]
  }

  /** The columns a checksum covers: the requested ones, or the catalogue's key set when none are requested. */
  function ChecksumColumns(catalogue: seq<(string, string)>, requested: Option<seq<string>>): seq<string>
  {
    if requested.None? || requested.value == [] then FirstSeen(CatalogueNames(catalogue)) else requested.value
  }

  function ReadOf(dbType: Option<string>, catalogue: seq<(string, string)>, name: string): ColumnRead
  {
    ColumnReadOf(IsOracle(dbType), Upper(CatalogueType(catalogue, name)))
  }

  function ExpressionOf(dbType: Option<string>, catalogue: seq<(string, string)>, name: string): string
  {
    ReadExpression(ReadOf(dbType, catalogue, name), QuoteForDatabase(dbType, Some(name)))
  }

  /** One select-list expression per column, in order. */
  function Expressions(dbType: Option<string>, catalogue: seq<(string, string)>, names: seq<string>): (r: seq<string>)
    ensures |r| == |names|
    ensures forall k :: 0 <= k < |names| ==> r[k] == ExpressionOf(dbType, catalogue, names[k])
  {
    if names == [] then []
    else Expressions(dbType, catalogue, names[..|names| - 1]) + [ExpressionOf(dbType, catalogue, names[|names| - 1])]
  }

  /** The 1-based positions of the columns fetched as bytes. */
  function FetchedPositions(dbType: Option<string>, catalogue: seq<(string, string)>, names: seq<string>): (r: set<int>)
    ensures forall i :: i in r <==> 1 <= i <= |names| && ReadOf(dbType, catalogue, names[i - 1]) == BytesFetched
  {
    if names == [] then {}
    else
      var init := names[..|names| - 1];
      var r := FetchedPositions(dbType, catalogue, init);
      assert forall k :: 0 <= k < |init| ==> names[k] == init[k];
      if ReadOf(dbType, catalogue, names[|names| - 1]) == BytesFetched then r + {|names|} else r
  }

  lemma PlanSnoc(dbType: Option<string>, catalogue: seq<(string, string)>, names: seq<string>, i: nat)
    requires i < |names|
    ensures Expressions(dbType, catalogue, names[..i + 1])
            == Expressions(dbType, catalogue, names[..i]) + [ExpressionOf(dbType, catalogue, names[i])]
    ensures FetchedPositions(dbType, catalogue, names[..i + 1])
            == FetchedPositions(dbType, catalogue, names[..i])
               + (if ReadOf(dbType, catalogue, names[i]) == BytesFetched then {i + 1} else {})
  {
    assert names[..i + 1][..i] == names[..i];
  }

  /**
   * The column loop of calculateTableChecksum: one select-list expression per
   * column, and the 1-based positions of the columns fetched as bytes.
   */
  method PlanChecksumColumns(dbType: Option<string>, catalogue: seq<(string, string)>, requested: Option<seq<string>>)
    returns (names: seq<string>, expressions: seq<string>, fetched: set<int>)
    ensures names == ChecksumColumns(catalogue, requested)
    ensures expressions == Expressions(dbType, catalogue, names)
    ensures fetched == FetchedPositions(dbType, catalogue, names)
  {
    names := ChecksumColumns(catalogue, requested);
    expressions := [];
    fetched := {};
    var columnIndex := 0;
    while columnIndex < |names|
      invariant 0 <= columnIndex <= |names|
      invariant expressions == Expressions(dbType, catalogue, names[..columnIndex])
      invariant fetched == FetchedPositions(dbType, catalogue, names[..columnIndex])
    {
      var name := names[columnIndex];
      var expression := ExpressionOf(dbType, catalogue, name);
      var read := ReadOf(dbType, catalogue, name);
      PlanSnoc(dbType, catalogue, names, columnIndex);
      columnIndex := columnIndex + 1;
      expressions := expressions + [expression];
      if read == BytesFetched {
        fetched := fetched + {columnIndex};
      }
    }
    assert names[..columnIndex] == names;
  }

  /** On PostgreSQL no column is fetched as bytes. */
  lemma PostgresFetchesNoBytes(dbType: Option<string>, catalogue: seq<(string, string)>, name: string)
    requires !IsOracle(dbType)
    ensures ReadOf(dbType, catalogue, name) != BytesFetched
  {
    PostgresReadsText(Upper(CatalogueType(catalogue, name)));
  }

  function OrderBy(dbType: Option<string>): string
  {
    if IsOracle(dbType) then " ORDER BY ROWID" else " ORDER BY ctid"
  }

  /** The checksum query: the expressions, the quoted table, in physical row order. */
  function ChecksumQuery(dbType: Option<string>, expressions: seq<string>, schema: Option<string>, table: Option<string>): (sql: string)
    ensures StartsWith(sql, "SELECT ")
    ensures EndsWith(sql, OrderBy(dbType))
  {
    var body := Join(expressions, ", ") + " FROM " + QuoteForDatabase(dbType, schema) + "." + QuoteForDatabase(dbType, table);
    SuffixOfAppend(body, OrderBy(dbType));
    SuffixOfAppend("SELECT ", body + OrderBy(dbType));
    PrefixOfAppend("SELECT ", body + OrderBy(dbType), 7);
    AppendAssoc("SELECT ", body, OrderBy(dbType));
    "SELECT " + body + OrderBy(dbType)
  }

  /** getRowCount's query. */
  function CountQuery(dbType: Option<string>, schema: Option<string>, table: Option<string>): (sql: string)
    ensures StartsWith(sql, "SELECT COUNT(*) FROM ")
  {
    var rest := QuoteForDatabase(dbType, schema) + "." + QuoteForDatabase(dbType, table);
    PrefixOfAppend("SELECT COUNT(*) FROM ", rest, 21);
    "SELECT COUNT(*) FROM " + rest
  }

  // ---------------------------------------------------------------- checksum text

  /** One cell as read: with getString, or with getBytes for the columns fetched as bytes. */
  datatype Cell = TextCell(text: Option<string>) | BytesCell(bytes: Option<seq<JByte>>)

  /** What a cell contributes to the checksum text. */
  function CellText(cell: Cell): string
  {
    match cell
      case TextCell(t) => if t.None? then "NULL" else t.value
      case BytesCell(b) => HexOrNull(b)
  }

  function CellTexts(row: seq<Cell>): (r: seq<string>)
    ensures |r| == |row|
    ensures forall k :: 0 <= k < |row| ==> r[k] == CellText(row[k])
  {
    if row == [] then [] else CellTexts(row[..|row| - 1]) + [CellText(row[|row| - 1])]
  }

  /** A row: its cells separated by '|', then a newline. */
  function RowLine(row: seq<Cell>): string
  {
    Join(CellTexts(row), "|") + "\n"
  }

  /** The text the digest is taken over: every row's line, in result-set order. */
  function Serialized(rows: seq<seq<Cell>>): string
  {
    if rows == [] then "" else RowLine(rows[0]) + Serialized(rows[1..])
  }

  lemma {:induction false} SerializedSnoc(rows: seq<seq<Cell>>, row: seq<Cell>)
    ensures Serialized(rows + [row]) == Serialized(rows) + RowLine(row)
    decreases |rows|
  {
    if rows == [] {
      assert [row][1..] == [];
    } else {
      assert (rows + [row])[1..] == rows[1..] + [row];
      SerializedSnoc(rows[1..], row);
    }
  }

  /** The cell texts so far: joined by '|', and one '|' more when further cells follow. */
  function CellsText(texts: seq<string>, more: bool): string
  {
    if texts == [] then "" else Join(texts, "|") + (if more then "|" else "")
  }

  lemma CellsTextSnoc(texts: seq<string>, x: string, more: bool)
    ensures CellsText(texts + [x], more) == CellsText(texts, true) + x + (if more then "|" else "")
  {
    JoinSnoc(texts, x, "|");
  }

  /** The inner loop: one row's cells, '|' after every cell but the last, then the newline. */
  method AppendRow(data: string, row: seq<Cell>) returns (d: string)
    ensures d == data + RowLine(row)
  {
    d := data;
    var i := 0;
    while i < |row|
      invariant 0 <= i <= |row|
      invariant d == data + CellsText(CellTexts(row[..i]), i < |row|)
    {
      var text := CellText(row[i]);
      var done := CellTexts(row[..i]);
      assert CellTexts(row[..i + 1]) == done + [text] by {
        assert row[..i + 1][..i] == row[..i];
      }
      var sep := if i + 1 < |row| then "|" else "";
      CellsTextSnoc(done, text, i + 1 < |row|);
      AppendAssoc(data, CellsText(done, true), text);
      AppendAssoc(data, CellsText(done, true) + text, sep);
      d := d + text;
      if i + 1 < |row| {
        d := d + "|";
      }
      i := i + 1;
    }
    assert row[..i] == row;
    d := d + "\n";
  }

  /** The row loop of calculateTableChecksum. */
  method SerializeRows(rows: seq<seq<Cell>>) returns (data: string)
    ensures data == Serialized(rows)
  {
    data := "";
    var r := 0;
    while r < |rows|
      invariant 0 <= r <= |rows|
      invariant data == Serialized(rows[..r])
    {
      assert rows[..r + 1] == rows[..r] + [rows[r]];
      SerializedSnoc(rows[..r], rows[r]);
      data := AppendRow(data, rows[r]);
      r := r + 1;
    }
    assert rows[..r] == rows;
  }

  /** No cell text holds '|' or a newline. */
  predicate PlainCells(row: seq<Cell>)
  {
    forall k :: 0 <= k < |row| ==> '|' !in CellText(row[k]) && '\n' !in CellText(row[k])
  }

  function Lines(rows: seq<seq<Cell>>): (r: seq<string>)
    ensures |r| == |rows|
    ensures forall k :: 0 <= k < |rows| ==> r[k] == Join(CellTexts(rows[k]), "|")
  {
    if rows == [] then [] else [Join(CellTexts(rows[0]), "|")] + Lines(rows[1..])
  }

  /** A row of plain cells: its line holds no newline, and splitting it at '|' gives its cell texts. */
  lemma LineSplits(row: seq<Cell>)
    requires row != [] && PlainCells(row)
    ensures '\n' !in Join(CellTexts(row), "|")
    ensures SplitAll(Join(CellTexts(row), "|"), '|') == CellTexts(row)
  {
    JoinAvoids(CellTexts(row), "|", '\n');
    SplitAllOfJoin(CellTexts(row), '|');
  }

  /** Lines, each followed by a newline. */
  function Terminated(lines: seq<string>): string
  {
    if lines == [] then "" else lines[0] + "\n" + Terminated(lines[1..])
  }

  lemma {:induction false} SerializedTerminated(rows: seq<seq<Cell>>)
    ensures Serialized(rows) == Terminated(Lines(rows))
    decreases |rows|
  {
    if rows != [] {
      SerializedTerminated(rows[1..]);
      assert Lines(rows)[1..] == Lines(rows[1..]);
    }
  }

  lemma {:induction false} SplitTerminated(lines: seq<string>)
    requires forall r :: 0 <= r < |lines| ==> '\n' !in lines[r]
    ensures SplitAll(Terminated(lines), '\n') == lines + [""]
    decreases |lines|
  {
    if lines == [] {
      assert IndexOfChar("", '\n').None?;
    } else {
      var head, rest := lines[0], lines[1..];
      var tail := Terminated(rest);
      assert Terminated(lines) == head + "\n" + tail;
      SplitTerminated(rest);
      SplitAllCons(head, tail, '\n');
      assert lines + [""] == [head] + (rest + [""]);
    }
  }

  /** Splitting the text at newlines gives the row lines, and an empty piece after the last newline. */
  lemma SerializedLines(rows: seq<seq<Cell>>)
    requires forall r :: 0 <= r < |rows| ==> '\n' !in Lines(rows)[r]
    ensures SplitAll(Serialized(rows), '\n') == Lines(rows) + [""]
  {
    SerializedTerminated(rows);
    SplitTerminated(Lines(rows));
  }

  /**
   * When every row has a column and no cell text holds '|' or a newline,
   * splitting the text at newlines and each line at '|' recovers every
   * row's cell texts.
   */
  lemma SerializedSplits(rows: seq<seq<Cell>>)
    requires forall r :: 0 <= r < |rows| ==> rows[r] != [] && PlainCells(rows[r])
    ensures SplitAll(Serialized(rows), '\n') == Lines(rows) + [""]
    ensures forall r :: 0 <= r < |rows| ==> SplitAll(Lines(rows)[r], '|') == CellTexts(rows[r])
  {
    forall r | 0 <= r < |rows|
      ensures '\n' !in Lines(rows)[r] && SplitAll(Lines(rows)[r], '|') == CellTexts(rows[r])
    {
      LineSplits(rows[r]);
    }
    SerializedLines(rows);
  }

  // ---------------------------------------------------------------- estimates

  /** Java's long division, which truncates toward zero. */
  function LongDiv(a: int, b: int): (q: int)
    requires b > 0
    ensures a >= 0 ==> q == a / b
  {
    if a >= 0 then a / b else -((-a) / b)
  }

  /** estimateTableSize: 1 KiB a row, in long arithmetic. */
  function EstimateSize(rows: int): int
  {
    LongValue(rows * 1024)
  }

  /** estimateMigrationTime: the slower of 1000 rows and 10 MiB a second. */
  function EstimateTime(rows: int, sizeBytes: int): int
  {
    var fromRows := LongDiv(rows, 1000);
    var fromSize := LongDiv(sizeBytes, 10 * 1024 * 1024);
    if fromRows >= fromSize then fromRows else fromSize
  }

  /** With 1 KiB rows the row rate is the bottleneck: the time is rows / 1000 seconds. */
  lemma TimeFollowsRows(rows: int)
    requires 0 <= rows && rows * 1024 <= LONG_MAX
    ensures EstimateSize(rows) == rows * 1024
    ensures EstimateTime(rows, EstimateSize(rows)) == rows / 1000
  {
    var q, r := rows / 10240, rows % 10240;
    assert rows == 10240 * q + r && 0 <= r < 10240;
    assert rows * 1024 == 10485760 * q + r * 1024;
    assert 0 <= r * 1024 < 10485760;
    assert (rows * 1024) / 10485760 == q;
    assert 1000 * q <= rows;
    assert q <= rows / 1000;
  }

  /** formatTime: seconds below a minute, minutes and seconds below an hour, else hours and minutes. */
  function FormatTime(seconds: int): (r: string)
    ensures EndsWith(r, "s") <==> seconds < 3600
  {
    if seconds < 60 then
      SuffixOfAppend(IntToString(seconds), "s");
      IntToString(seconds) + "s"
    else if seconds < 3600 then
      SuffixOfAppend(IntToString(seconds / 60) + "m " + IntToString(seconds % 60), "s");
      IntToString(seconds / 60) + "m " + IntToString(seconds % 60) + "s"
    else
      SuffixOfAppend(IntToString(seconds / 3600) + "h " + IntToString(seconds % 3600 / 60), "m");
      IntToString(seconds / 3600) + "h " + IntToString(seconds % 3600 / 60) + "m"
  }

  lemma MinuteOfHour(a: int)
    requires a >= 0
    ensures a / 60 == 60 * (a / 3600) + a % 3600 / 60
  {
    var h, rem := a / 3600, a % 3600;
    var m, s := rem / 60, rem % 60;
    assert a == 3600 * h + rem;
    assert rem == 60 * m + s && 0 <= s < 60;
    assert a == 60 * (60 * h + m) + s;
  }

  lemma SecondsDiffer(a: nat, b: nat)
    requires a < 60 && b < 60 && a != b
    ensures FormatTime(a) != FormatTime(b)
  {
    DigitsBetweenDiffer("", a, b, 's');
    assert FormatTime(a) == "" + NatToString(a) + ['s'];
    assert FormatTime(b) == "" + NatToString(b) + ['s'];
  }

  /** The text of 60 <= t < 3600, cut after the minutes' 'm'. */
  lemma MinutesText(t: nat)
    requires 60 <= t < 3600
    ensures FormatTime(t) == NatToString(t / 60) + ['m'] + (" " + NatToString(t % 60) + "s")
  {
  }

  lemma MinutesDiffer(a: nat, b: nat)
    requires 60 <= a < 3600 && 60 <= b < 3600 && a != b
    ensures FormatTime(a) != FormatTime(b)
  {
    if a / 60 == b / 60 {
      DigitsBetweenDiffer(" ", a % 60, b % 60, 's');
    }
    DigitsThenCharDiffer(a / 60, " " + NatToString(a % 60) + "s", b / 60, " " + NatToString(b % 60) + "s", 'm');
    MinutesText(a);
    MinutesText(b);
  }

  /** The text of t >= 3600, cut after the hours' 'h'. */
  lemma HoursText(t: nat)
    requires 3600 <= t
    ensures FormatTime(t) == NatToString(t / 3600) + ['h'] + (" " + NatToString(t % 3600 / 60) + "m")
  {
  }

  lemma HoursDiffer(a: nat, b: nat)
    requires 3600 <= a && 3600 <= b && a / 60 != b / 60
    ensures FormatTime(a) != FormatTime(b)
  {
    MinuteOfHour(a);
    MinuteOfHour(b);
    if a / 3600 == b / 3600 {
      DigitsBetweenDiffer(" ", a % 3600 / 60, b % 3600 / 60, 'm');
    }
    DigitsThenCharDiffer(a / 3600, " " + NatToString(a % 3600 / 60) + "m", b / 3600, " " + NatToString(b % 3600 / 60) + "m", 'h');
    HoursText(a);
    HoursText(b);
  }

  /** Below a minute the text has no 'm'; from a minute to an hour it has one. */
  lemma SecondsAndMinutesDiffer(a: nat, b: nat)
    requires a < 60 <= b < 3600
    ensures FormatTime(a) != FormatTime(b)
  {
    MinutesText(b);
    var f := FormatTime(b);
    assert f[|NatToString(b / 60)|] == 'm';
    assert FormatTime(a) == NatToString(a) + "s";
    assert 'm' !in FormatTime(a);
  }

  /**
   * formatTime tells apart any two different non-negative times, except two
   * of an hour or more within the same minute.
   */
  lemma FormatTimeDistinguishes(a: int, b: int)
    requires 0 <= a && 0 <= b && a != b
    requires a < 3600 || b < 3600 || a / 60 != b / 60
    ensures FormatTime(a) != FormatTime(b)
  {
    if a < 3600 && b < 3600 {
      if a < 60 && b < 60 {
        SecondsDiffer(a, b);
      } else if a >= 60 && b >= 60 {
        MinutesDiffer(a, b);
      } else if a < 60 {
        SecondsAndMinutesDiffer(a, b);
      } else {
        SecondsAndMinutesDiffer(b, a);
      }
    } else if a >= 3600 && b >= 3600 {
      HoursDiffer(a, b);
    }
  }

  /** From an hour on, only the minute shows: times in the same minute format alike. */
  lemma FormatTimeSameMinute(a: int, b: int)
    requires 3600 <= a && 3600 <= b && a / 60 == b / 60
    ensures FormatTime(a) == FormatTime(b)
  {
    MinuteOfHour(a);
    MinuteOfHour(b);
    assert a / 3600 == a / 60 / 60 && b / 3600 == b / 60 / 60;
  }

  // ---------------------------------------------------------------- dry-run checks

  const LARGE_TABLE := "Large table - consider batch migration"
  const VERY_LARGE_TABLE := "Very large table - migration may take several hours"
  const LARGE_SIZE := "Large data size - ensure sufficient network bandwidth"
  const NO_COLUMN_MAPPINGS := "No column mappings configured"

  function IssueChecks(mapping: TableMapping, rowCount: int, estimatedSize: int): seq<(bool, string)>
  {
    [(rowCount > 1_000_000, LARGE_TABLE),
     (rowCount > 10_000_000, VERY_LARGE_TABLE),
     (estimatedSize > 1024 * 1024 * 1024, LARGE_SIZE),
     (mapping.columnMappings.None? || mapping.columnMappings.value == [], NO_COLUMN_MAPPINGS)]
  }

  /** checkForIssues: the four independent checks, appended in order. */
  method CheckForIssues(mapping: TableMapping, rowCount: int, estimatedSize: int) returns (issues: seq<string>)
    ensures issues == Selected(IssueChecks(mapping, rowCount, estimatedSize))
  {
    issues := [];
    if rowCount > 1_000_000 {
      issues := issues + [LARGE_TABLE];
    }
    if rowCount > 10_000_000 {
      issues := issues + [VERY_LARGE_TABLE];
    }
    if estimatedSize > 1024 * 1024 * 1024 {
      issues := issues + [LARGE_SIZE];
    }
    if mapping.columnMappings.None? || mapping.columnMappings.value == [] {
      issues := issues + [NO_COLUMN_MAPPINGS];
    }
    SelectedFour(rowCount > 1_000_000, rowCount > 10_000_000, estimatedSize > 1024 * 1024 * 1024,
                 mapping.columnMappings.None? || mapping.columnMappings.value == [],
                 LARGE_TABLE, VERY_LARGE_TABLE, LARGE_SIZE, NO_COLUMN_MAPPINGS);
  }

  /** Each warning is reported exactly when its condition holds; a very large table is also a large one. */
  lemma IssuesReported(mapping: TableMapping, rowCount: int, estimatedSize: int)
    ensures var issues := Selected(IssueChecks(mapping, rowCount, estimatedSize));
            && (LARGE_TABLE in issues <==> rowCount > 1_000_000)
            && (VERY_LARGE_TABLE in issues <==> rowCount > 10_000_000)
            && (LARGE_SIZE in issues <==> estimatedSize > 1024 * 1024 * 1024)
            && (NO_COLUMN_MAPPINGS in issues <==> mapping.columnMappings.None? || mapping.columnMappings.value == [])
            && (VERY_LARGE_TABLE in issues ==> LARGE_TABLE in issues)
  {
    var checks := IssueChecks(mapping, rowCount, estimatedSize);
    assert DistinctMessages(checks);
    SelectedIff(checks, 0);
    SelectedIff(checks, 1);
    SelectedIff(checks, 2);
    SelectedIff(checks, 3);
  }

  // ---------------------------------------------------------------- DDL preview

  /** One column's line; None when nullable is null (unboxing it throws). */
  function PreviewLine(c: ColumnMapping): Option<string>
  {
    if c.nullable.None? then None
    else
      var typeName := if c.targetDataType.Some? then c.targetDataType.value else "TEXT";
      Some("  " + JavaString(c.targetColumn) + " " + typeName + (if c.nullable.value then "" else " NOT NULL"))
  }

  predicate NullabilityKnown(cols: seq<ColumnMapping>)
  {
    forall k :: 0 <= k < |cols| ==> cols[k].nullable.Some?
  }

  function PreviewLines(cols: seq<ColumnMapping>): (r: seq<string>)
    requires NullabilityKnown(cols)
    ensures |r| == |cols|
    ensures forall k :: 0 <= k < |cols| ==> Some(r[k]) == PreviewLine(cols[k])
  {
    if cols == [] then [] else PreviewLines(cols[..|cols| - 1]) + [PreviewLine(cols[|cols| - 1]).value]
  }

  /**
   * The column block after some lines: joined by ",\n", then ",\n" again
   * when more lines follow, or the last "\n" when none do.
   */
  function LinesText(lines: seq<string>, more: bool): string
  {
    if lines == [] then "" else Join(lines, ",\n") + (if more then ",\n" else "\n")
  }

  lemma LinesTextSnoc(text: string, lines: seq<string>, x: string, more: bool)
    ensures text + LinesText(lines + [x], more) == text + LinesText(lines, true) + x + (if more then "," else "") + "\n"
  {
    JoinSnoc(lines, x, ",\n");
    var c := if more then "," else "";
    if lines == [] {
      assert LinesText(lines + [x], more) == x + (c + "\n");
    } else {
      assert LinesText(lines + [x], more) == Join(lines, ",\n") + ",\n" + x + (c + "\n");
    }
  }

  function PreviewHead(mapping: TableMapping): string
  {
    "CREATE TABLE " + JavaString(mapping.targetSchema) + "." + JavaString(mapping.targetTable) + " (\n"
  }

  const NO_COLUMNS_LINE := "  -- Column mappings not configured\n"

  /**
   * generateDdlPreview: the header, one line per column with commas between
   * the lines, and the closing ");". None when a column's nullable is null.
   */
  function DdlPreview(mapping: TableMapping): (r: Option<string>)
    ensures r.None? <==> mapping.columnMappings.Some? && !NullabilityKnown(mapping.columnMappings.value)
  {
    if mapping.columnMappings.None? || mapping.columnMappings.value == [] then
      Some(PreviewHead(mapping) + NO_COLUMNS_LINE + ");")
    else if !NullabilityKnown(mapping.columnMappings.value) then None
    else Some(PreviewHead(mapping) + (Join(PreviewLines(mapping.columnMappings.value), ",\n") + "\n") + ");")
  }

  lemma PreviewLinesSnoc(cols: seq<ColumnMapping>, i: nat)
    requires i < |cols| && NullabilityKnown(cols[..i]) && cols[i].nullable.Some?
    ensures NullabilityKnown(cols[..i + 1])
    ensures PreviewLines(cols[..i + 1]) == PreviewLines(cols[..i]) + [PreviewLine(cols[i]).value]
  {
    var prefix := cols[..i + 1];
    assert prefix[..i] == cols[..i];
    assert forall k :: 0 <= k < i ==> prefix[k] == cols[..i][k];
  }

  /** The column loop of generateDdlPreview, appending to text. */
  method AppendPreviewLines(text: string, cols: seq<ColumnMapping>) returns (r: Option<string>)
    requires cols != []
    ensures NullabilityKnown(cols) ==> r == Some(text + (Join(PreviewLines(cols), ",\n") + "\n"))
    ensures !NullabilityKnown(cols) ==> r.None?
  {
    var t := text;
    ghost var lines: seq<string> := [];
    var i := 0;
    while i < |cols|
      invariant 0 <= i <= |cols|
      invariant NullabilityKnown(cols[..i]) && lines == PreviewLines(cols[..i])
      invariant t == text + LinesText(lines, i < |cols|)
    {
      var line := PreviewLine(cols[i]);
      if line.None? {
        assert !NullabilityKnown(cols);
        return None;
      }
      PreviewLinesSnoc(cols, i);
      LinesTextSnoc(text, lines, line.value, i + 1 < |cols|);
      lines := lines + [line.value];
      t := t + line.value + (if i + 1 < |cols| then "," else "") + "\n";
      i := i + 1;
    }
    assert cols[..i] == cols;
    r := Some(t);
  }

  /** The StringBuilder code of generateDdlPreview. */
  method GenerateDdlPreview(mapping: TableMapping) returns (ddl: Option<string>)
    ensures ddl == DdlPreview(mapping)
  {
    var text := PreviewHead(mapping);
    if mapping.columnMappings.None? || mapping.columnMappings.value == [] {
      return Some(text + NO_COLUMNS_LINE + ");");
    }
    var block := AppendPreviewLines(text, mapping.columnMappings.value);
    if block.None? {
      return None;
    }
    ddl := Some(block.value + ");");
  }

  /** A column whose nullable is false gets NOT NULL; a nullable one ends with its type, TEXT when unset. */
  lemma PreviewLineNotNull(c: ColumnMapping)
    requires c.nullable.Some?
    ensures !c.nullable.value ==> EndsWith(PreviewLine(c).value, " NOT NULL")
    ensures c.nullable.value ==> EndsWith(PreviewLine(c).value, if c.targetDataType.Some? then c.targetDataType.value else "TEXT")
  {
    var typeName := if c.targetDataType.Some? then c.targetDataType.value else "TEXT";
    var head := "  " + JavaString(c.targetColumn) + " ";
    if c.nullable.value {
      assert PreviewLine(c).value == head + typeName + "";
      SuffixOfAppend(head, typeName);
    } else {
      SuffixOfAppend(head + typeName, " NOT NULL");
    }
  }

  // ---------------------------------------------------------------- comparisons

  /** What a database read gives back: a value, or the exception's message. */
  datatype Probe<T> = Read(value: T) | Failed(message: Option<string>)

  datatype RowCountResult = RowCountResult(
    table: Option<string>,
    sourceSchema: Option<string>,
    targetSchema: Option<string>,
    sourceCount: Option<int>,
    targetCount: Option<int>,
    matched: Option<bool>,
    difference: Option<int>,
    status: Option<string>,
    errorMessage: Option<string>)

  /** One turn of compareRowCounts' loop: source count, target count, then their difference. */
  function CompareCounts(m: TableMapping, source: Probe<int>, target: Probe<int>): (r: RowCountResult)
    ensures r.table == m.sourceTable && r.sourceSchema == m.sourceSchema && r.targetSchema == m.targetSchema
    ensures r.status == Some("error") <==> source.Failed? || target.Failed?
    ensures r.status.Some? && r.status.value in {"match", "mismatch", "error"}
    ensures r.matched == Some(r.status == Some("match"))
    ensures source.Read? && target.Read? && 0 <= source.value <= LONG_MAX && 0 <= target.value <= LONG_MAX ==>
              r.difference == Some(source.value - target.value) && (r.status == Some("match") <==> source.value == target.value)
  {
    var base := RowCountResult(m.sourceTable, m.sourceSchema, m.targetSchema, None, None, None, None, None, None);
    match source
      case Failed(e) => base.(status := Some("error"), errorMessage := e, matched := Some(false))
      case Read(s) =>
        match target
          case Failed(e) => base.(sourceCount := Some(s), status := Some("error"), errorMessage := e, matched := Some(false))
          case Read(t) =>
            var d := LongValue(s - t);
            base.(sourceCount := Some(s), targetCount := Some(t), difference := Some(d), matched := Some(d == 0),
                  status := Some(if d == 0 then "match" else "mismatch"))
  }

  datatype ChecksumResult = ChecksumResult(
    table: Option<string>,
    sourceSchema: Option<string>,
    targetSchema: Option<string>,
    sourceChecksum: Option<string>,
    targetChecksum: Option<string>,
    matched: Option<bool>,
    algorithm: string,
    status: Option<string>,
    errorMessage: Option<string>,
    rowCount: Option<int>)

  /** The digest name used when none is given. */
  function Algorithm(algorithm: Option<string>): (r: string)
    ensures algorithm.None? || algorithm.value == [] ==> r == "MD5"
    ensures algorithm.Some? && algorithm.value != [] ==> r == algorithm.value
  {
    if algorithm.None? || algorithm.value == [] then "MD5" else algorithm.value
  }

  /** One turn of compareChecksums' loop: source digest, target digest, row count, then the comparison. */
  function CompareDigests(m: TableMapping, algorithm: string, source: Probe<string>, target: Probe<string>, rows: Probe<int>): (r: ChecksumResult)
    ensures r.table == m.sourceTable && r.algorithm == algorithm
    ensures r.status == Some("valid") <==> source.Read? && target.Read? && rows.Read? && source.value == target.value
    ensures r.status == Some("error") <==> source.Failed? || target.Failed? || rows.Failed?
    ensures r.matched == Some(r.status == Some("valid"))
  {
    var base := ChecksumResult(m.sourceTable, m.sourceSchema, m.targetSchema, None, None, None, algorithm, None, None, None);
    match source
      case Failed(e) => base.(status := Some("error"), errorMessage := e, matched := Some(false))
      case Read(s) =>
        match target
          case Failed(e) => base.(sourceChecksum := Some(s), status := Some("error"), errorMessage := e, matched := Some(false))
          case Read(t) =>
            match rows
              case Failed(e) =>
                base.(sourceChecksum := Some(s), targetChecksum := Some(t), status := Some("error"), errorMessage := e, matched := Some(false))
              case Read(n) =>
                base.(sourceChecksum := Some(s), targetChecksum := Some(t), rowCount := Some(n), matched := Some(s == t),
                      status := Some(if s == t then "valid" else "invalid"))
  }

  datatype DryRunResult = DryRunResult(
    table: Option<string>,
    sourceSchema: Option<string>,
    targetSchema: Option<string>,
    rowCount: Option<int>,
    estimatedSizeBytes: Option<int>,
    estimatedTime: Option<string>,
    issues: seq<string>,
    ddlPreview: Option<string>,
    status: string,
    errorMessage: Option<string>)

  /**
   * One turn of performDryRun's loop: the row count, the estimates, the DDL
   * preview and the issues. A failed count or a preview that throws gives
   * status "error"; the exception's text for the latter is not modelled.
   */
  function DryRunOf(m: TableMapping, rows: Probe<int>): (r: DryRunResult)
    ensures r.table == m.sourceTable
    ensures r.status == "error" <==> rows.Failed? || DdlPreview(m).None?
    ensures r.status == "warning" <==> rows.Read? && DdlPreview(m).Some? && r.issues != []
    ensures r.status == "ready" <==> rows.Read? && DdlPreview(m).Some? && r.issues == []
  {
    var base := DryRunResult(m.sourceTable, m.sourceSchema, m.targetSchema, None, None, None, [], None, "ready", None);
    match rows
      case Failed(e) => base.(status := "error", errorMessage := e)
      case Read(n) =>
        var size := EstimateSize(n);
        var timed := base.(rowCount := Some(n), estimatedSizeBytes := Some(size),
                           estimatedTime := Some(FormatTime(EstimateTime(n, size))));
        match DdlPreview(m)
          case None => timed.(status := "error")
          case Some(ddl) =>
            var issues := Selected(IssueChecks(m, n, size));
            timed.(ddlPreview := Some(ddl), issues := issues, status := if issues != [] then "warning" else "ready")
  }

  // ---------------------------------------------------------------- the three reports

  /** A report: the per-table results, or the message of the exception thrown. */
  datatype Report<T> = Results(results: seq<T>) | Failure(message: string)

  const NO_CONNECTIONS := "Source or target connection not configured"
  const NO_MAPPINGS := "No table mappings configured"

  /** The table filter: every mapping when no names are given, else those whose source table is named. */
  function SelectTables<T(==, !new)>(tables: seq<(TableMapping, T)>, names: Option<seq<Option<string>>>): (r: seq<(TableMapping, T)>)
    ensures |r| <= |tables|
    ensures forall x :: x in r <==> x in tables && (names.None? || names.value == [] || x.0.sourceTable in names.value)
  {
    if names.None? || names.value == [] then tables else KeepNamed(tables, names.value)
  }

  function KeepNamed<T(==, !new)>(tables: seq<(TableMapping, T)>, names: seq<Option<string>>): (r: seq<(TableMapping, T)>)
    ensures |r| <= |tables|
    ensures forall x :: x in r <==> x in tables && x.0.sourceTable in names
  {
    if tables == [] then []
    else (if tables[0].0.sourceTable in names then [tables[0]] else []) + KeepNamed(tables[1..], names)
  }

  /** The checks made before any table is looked at. */
  function Unconfigured<T>(hasSource: bool, hasTarget: bool, tables: Option<seq<(TableMapping, T)>>): (r: Option<string>)
    ensures r.None? <==> hasSource && hasTarget && tables.Some? && tables.value != []
  {
    if !hasSource || !hasTarget then Some(NO_CONNECTIONS)
    else if tables.None? || tables.value == [] then Some(NO_MAPPINGS)
    else None
  }

  function RowCountResults(tables: seq<(TableMapping, (Probe<int>, Probe<int>))>): (r: seq<RowCountResult>)
    ensures |r| == |tables|
    ensures forall k :: 0 <= k < |tables| ==> r[k] == CompareCounts(tables[k].0, tables[k].1.0, tables[k].1.1)
  {
    if tables == [] then []
    else
      var t := tables[|tables| - 1];
      RowCountResults(tables[..|tables| - 1]) + [CompareCounts(t.0, t.1.0, t.1.1)]
  }

  /**
   * compareRowCounts. tables pairs each mapping of the project with the counts
   * the source and target databases give for it (None: no mappings).
   */
  function RowCountReport(hasSource: bool, hasTarget: bool, tables: Option<seq<(TableMapping, (Probe<int>, Probe<int>))>>,
                          names: Option<seq<Option<string>>>): (r: Report<RowCountResult>)
    ensures r.Failure? <==> Unconfigured(hasSource, hasTarget, tables).Some?
    ensures r.Failure? ==> r.message == "Failed to compare row counts: " + Unconfigured(hasSource, hasTarget, tables).value
  {
    match Unconfigured(hasSource, hasTarget, tables)
      case Some(e) => Failure("Failed to compare row counts: " + e)
      case None => Results(RowCountResults(SelectTables(tables.value, names)))
  }

  method CompareRowCounts(hasSource: bool, hasTarget: bool, tables: Option<seq<(TableMapping, (Probe<int>, Probe<int>))>>,
                          names: Option<seq<Option<string>>>) returns (r: Report<RowCountResult>)
    ensures r == RowCountReport(hasSource, hasTarget, tables, names)
  {
    var problem := Unconfigured(hasSource, hasTarget, tables);
    if problem.Some? {
      return Failure("Failed to compare row counts: " + problem.value);
    }
    var selected := SelectTables(tables.value, names);
    var results: seq<RowCountResult> := [];
    var i := 0;
    while i < |selected|
      invariant 0 <= i <= |selected|
      invariant results == RowCountResults(selected[..i])
    {
      assert selected[..i + 1][..i] == selected[..i];
      results := results + [CompareCounts(selected[i].0, selected[i].1.0, selected[i].1.1)];
      i := i + 1;
    }
    assert selected[..i] == selected;
    r := Results(results);
  }

  /** Every selected table gets a result, in order, and "match" means equal counts. */
  lemma RowCountsPerTable(hasSource: bool, hasTarget: bool, tables: seq<(TableMapping, (Probe<int>, Probe<int>))>,
                          names: Option<seq<Option<string>>>, k: nat)
    requires hasSource && hasTarget && tables != []
    requires k < |SelectTables(tables, names)|
    ensures var selected := SelectTables(tables, names);
            var r := RowCountReport(hasSource, hasTarget, Some(tables), names);
            var t := selected[k];
            && r.Results? && |r.results| == |selected|
            && r.results[k].table == t.0.sourceTable
            && (t.1.0.Read? && t.1.1.Read? && 0 <= t.1.0.value <= LONG_MAX && 0 <= t.1.1.value <= LONG_MAX ==>
                  (r.results[k].status == Some("match") <==> t.1.0.value == t.1.1.value))
  {
  }

  function ChecksumResults(tables: seq<(TableMapping, (Probe<string>, Probe<string>, Probe<int>))>, algorithm: string): (r: seq<ChecksumResult>)
    ensures |r| == |tables|
    ensures forall k :: 0 <= k < |tables| ==> r[k] == CompareDigests(tables[k].0, algorithm, tables[k].1.0, tables[k].1.1, tables[k].1.2)
  {
    if tables == [] then []
    else
      var t := tables[|tables| - 1];
      ChecksumResults(tables[..|tables| - 1], algorithm) + [CompareDigests(t.0, algorithm, t.1.0, t.1.1, t.1.2)]
  }

  /** compareChecksums; tables pairs each mapping with the two digests and the source row count. */
  function ChecksumReport(hasSource: bool, hasTarget: bool, tables: Option<seq<(TableMapping, (Probe<string>, Probe<string>, Probe<int>))>>,
                          names: Option<seq<Option<string>>>, algorithm: Option<string>): (r: Report<ChecksumResult>)
    ensures r.Failure? <==> Unconfigured(hasSource, hasTarget, tables).Some?
    ensures r.Failure? ==> r.message == "Failed to compare checksums: " + Unconfigured(hasSource, hasTarget, tables).value
    ensures r.Results? ==> forall k :: 0 <= k < |r.results| ==> r.results[k].algorithm == Algorithm(algorithm)
  {
    match Unconfigured(hasSource, hasTarget, tables)
      case Some(e) => Failure("Failed to compare checksums: " + e)
      case None => Results(ChecksumResults(SelectTables(tables.value, names), Algorithm(algorithm)))
  }

  method CompareChecksums(hasSource: bool, hasTarget: bool, tables: Option<seq<(TableMapping, (Probe<string>, Probe<string>, Probe<int>))>>,
                          names: Option<seq<Option<string>>>, algorithm: Option<string>) returns (r: Report<ChecksumResult>)
    ensures r == ChecksumReport(hasSource, hasTarget, tables, names, algorithm)
  {
    var problem := Unconfigured(hasSource, hasTarget, tables);
    if problem.Some? {
      return Failure("Failed to compare checksums: " + problem.value);
    }
    var alg := Algorithm(algorithm);
    var selected := SelectTables(tables.value, names);
    var results: seq<ChecksumResult> := [];
    var i := 0;
    while i < |selected|
      invariant 0 <= i <= |selected|
      invariant results == ChecksumResults(selected[..i], alg)
    {
      assert selected[..i + 1][..i] == selected[..i];
      results := results + [CompareDigests(selected[i].0, alg, selected[i].1.0, selected[i].1.1, selected[i].1.2)];
      i := i + 1;
    }
    assert selected[..i] == selected;
    r := Results(results);
  }

  function DryRunResults(tables: seq<(TableMapping, Probe<int>)>): (r: seq<DryRunResult>)
    ensures |r| == |tables|
    ensures forall k :: 0 <= k < |tables| ==> r[k] == DryRunOf(tables[k].0, tables[k].1)
  {
    if tables == [] then []
    else
      var init, t := tables[..|tables| - 1], tables[|tables| - 1];
      assert forall k :: 0 <= k < |init| ==> init[k] == tables[k];
      DryRunResults(init) + [DryRunOf(t.0, t.1)]
  }

  /** performDryRun; tables pairs each mapping with the source row count. */
  function DryRunReport(hasSource: bool, hasTarget: bool, tables: Option<seq<(TableMapping, Probe<int>)>>,
                        names: Option<seq<Option<string>>>): (r: Report<DryRunResult>)
    ensures r.Failure? <==> Unconfigured(hasSource, hasTarget, tables).Some?
    ensures r.Failure? ==> r.message == "Failed to perform dry-run: " + Unconfigured(hasSource, hasTarget, tables).value
  {
    match Unconfigured(hasSource, hasTarget, tables)
      case Some(e) => Failure("Failed to perform dry-run: " + e)
      case None => Results(DryRunResults(SelectTables(tables.value, names)))
  }

  method PerformDryRun(hasSource: bool, hasTarget: bool, tables: Option<seq<(TableMapping, Probe<int>)>>,
                       names: Option<seq<Option<string>>>) returns (r: Report<DryRunResult>)
    ensures r == DryRunReport(hasSource, hasTarget, tables, names)
  {
    var problem := Unconfigured(hasSource, hasTarget, tables);
    if problem.Some? {
      return Failure("Failed to perform dry-run: " + problem.value);
    }
    var selected := SelectTables(tables.value, names);
    var results: seq<DryRunResult> := [];
    var i := 0;
    while i < |selected|
      invariant 0 <= i <= |selected|
      invariant results == DryRunResults(selected[..i])
    {
      assert selected[..i + 1][..i] == selected[..i];
      results := results + [DryRunOf(selected[i].0, selected[i].1)];
      i := i + 1;
    }
    assert selected[..i] == selected;
    r := Results(results);
  }
}
