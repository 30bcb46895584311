// The UTF-8 encoding the log export's OutputStreamWriter applies (section 3
// of RFC 3629), over Unicode scalar values, with a decoder to prove it
// loses nothing.

module Utf8 {
  import opened JavaStr
  import opened Base16

  /** One character's bytes: one to four, by the size of its code point. */
  function EncodeChar(c: char): (r: seq<JByte>)
    ensures 1 <= |r| <= 4
    ensures (c as int) < 0x80 ==> r == [c as int]
  {
    var n := c as int;
    if n < 0x80 then [n]
    else if n < 0x800 then [ToByte(0xC0 + n / 64), ToByte(0x80 + n % 64)]
    else if n < 0x1_0000 then [ToByte(0xE0 + n / 4096), ToByte(0x80 + n / 64 % 64), ToByte(0x80 + n % 64)]
    else [ToByte(0xF0 + n / 262144), ToByte(0x80 + n / 4096 % 64), ToByte(0x80 + n / 64 % 64), ToByte(0x80 + n % 64)]
  }

  function Encode(s: string): seq<JByte>
  {
    if s == [] then [] else Encode(s[..|s| - 1]) + EncodeChar(s[|s| - 1])
  }

  lemma {:induction false} EncodeAppend(a: string, b: string)
    ensures Encode(a + b) == Encode(a) + Encode(b)
    decreases |b|
  {
    if b == [] {
      assert a + b == a;
    } else {
      var init, last := b[..|b| - 1], b[|b| - 1];
      var ab := a + b;
      assert ab[..|ab| - 1] == a + init && ab[|ab| - 1] == last;
      assert Encode(ab) == Encode(a + init) + EncodeChar(last);
      EncodeAppend(a, init);
      var x, y, z := Encode(a), Encode(init), EncodeChar(last);
      assert Encode(b) == y + z;
      assert (x + y) + z == x + (y + z);
    }
  }

  predicate IsAscii(s: string)
  {
    forall k :: 0 <= k < |s| ==> (s[k] as int) < 0x80
  }

  /** ASCII text is written byte for byte. */
  lemma {:induction false} EncodeAscii(s: string)
    requires IsAscii(s)
    ensures |Encode(s)| == |s|
    ensures forall k :: 0 <= k < |s| ==> Encode(s)[k] == s[k] as int
    decreases |s|
  {
    if s != [] {
      var init := s[..|s| - 1];
      assert forall k :: 0 <= k < |init| ==> init[k] == s[k];
      EncodeAscii(init);
    }
  }

  /** A continuation byte's six payload bits, or None. */
  function Payload(b: JByte): Option<int>
  {
    var u := Unsigned(b);
    if 0x80 <= u < 0xC0 then Some(u - 0x80) else None
  }

  /** The scalar value a lead byte and its continuation payloads stand for, when it is one. */
  function ScalarOf(n: int): Option<char>
  {
    if 0 <= n < 0xD800 || 0xE000 <= n < 0x11_0000 then Some(n as char) else None
  }

  /** Reads one character from the front; None on a malformed or truncated sequence. */
  function DecodeChar(bs: seq<JByte>): (r: Option<(char, nat)>)
    requires bs != []
    ensures r.Some? ==> 1 <= r.value.1 <= |bs| && r.value.1 <= 4
  {
    var u := Unsigned(bs[0]);
    if u < 0x80 then Some((u as char, 1))
    else if 0xC0 <= u < 0xE0 && |bs| >= 2 && Payload(bs[1]).Some? then
      var n := (u - 0xC0) * 64 + Payload(bs[1]).value;
      if n < 0x80 then None else match ScalarOf(n) case None => None case Some(c) => Some((c, 2))
    else if 0xE0 <= u < 0xF0 && |bs| >= 3 && Payload(bs[1]).Some? && Payload(bs[2]).Some? then
      var n := (u - 0xE0) * 4096 + Payload(bs[1]).value * 64 + Payload(bs[2]).value;
      if n < 0x800 then None else match ScalarOf(n) case None => None case Some(c) => Some((c, 3))
    else if 0xF0 <= u < 0xF8 && |bs| >= 4 && Payload(bs[1]).Some? && Payload(bs[2]).Some? && Payload(bs[3]).Some? then
      var n := (u - 0xF0) * 262144 + Payload(bs[1]).value * 4096 + Payload(bs[2]).value * 64 + Payload(bs[3]).value;
      if n < 0x1_0000 then None else match ScalarOf(n) case None => None case Some(c) => Some((c, 4))
    else None
  }

  function Decode(bs: seq<JByte>): Option<string>
    decreases |bs|
  {
    if bs == [] then Some([])
    else match DecodeChar(bs)
      case None => None
      case Some((c, k)) =>
        match Decode(bs[k..])
          case None => None
          case Some(rest) => Some([c] + rest)
  }

  lemma UnsignedOfToByte(u: int)
    requires 0 <= u < 256
    ensures Unsigned(ToByte(u)) == u
  {
  }

  lemma DecodeTwo(n: int)
    requires 0x80 <= n < 0x800
    ensures var b0, b1 := ToByte(0xC0 + n / 64), ToByte(0x80 + n % 64);
            Unsigned(b0) == 0xC0 + n / 64 && Payload(b1) == Some(n % 64)
            && (Unsigned(b0) - 0xC0) * 64 + n % 64 == n
  {
    UnsignedOfToByte(0xC0 + n / 64);
    UnsignedOfToByte(0x80 + n % 64);
  }

  lemma DecodeThree(n: int)
    requires 0x800 <= n < 0x1_0000
    ensures var b0, b1, b2 := ToByte(0xE0 + n / 4096), ToByte(0x80 + n / 64 % 64), ToByte(0x80 + n % 64);
            Unsigned(b0) == 0xE0 + n / 4096 && Payload(b1) == Some(n / 64 % 64) && Payload(b2) == Some(n % 64)
            && (Unsigned(b0) - 0xE0) * 4096 + (n / 64 % 64) * 64 + n % 64 == n
  {
    UnsignedOfToByte(0xE0 + n / 4096);
    UnsignedOfToByte(0x80 + n / 64 % 64);
    UnsignedOfToByte(0x80 + n % 64);
    var q := n / 64;
    assert n == q * 64 + n % 64;
    assert q == (q / 64) * 64 + q % 64;
    assert q / 64 == n / 4096;
  }

  lemma DecodeFour(n: int)
    requires 0x1_0000 <= n < 0x11_0000
    ensures var b0, b1, b2, b3 := ToByte(0xF0 + n / 262144), ToByte(0x80 + n / 4096 % 64), ToByte(0x80 + n / 64 % 64), ToByte(0x80 + n % 64);
            Unsigned(b0) == 0xF0 + n / 262144 && Payload(b1) == Some(n / 4096 % 64)
            && Payload(b2) == Some(n / 64 % 64) && Payload(b3) == Some(n % 64)
            && (Unsigned(b0) - 0xF0) * 262144 + (n / 4096 % 64) * 4096 + (n / 64 % 64) * 64 + n % 64 == n
  {
    UnsignedOfToByte(0xF0 + n / 262144);
    UnsignedOfToByte(0x80 + n / 4096 % 64);
    UnsignedOfToByte(0x80 + n / 64 % 64);
    UnsignedOfToByte(0x80 + n % 64);
    var q := n / 64;
    var p := q / 64;
    assert n == q * 64 + n % 64;
    assert q == p * 64 + q % 64;
    assert p == (p / 64) * 64 + p % 64;
    assert p == n / 4096;
    assert p / 64 == n / 262144;
  }

  lemma DecodeTwoBytes(c: char, rest: seq<JByte>)
    requires 0x80 <= c as int < 0x800
    ensures DecodeChar(EncodeChar(c) + rest) == Some((c, 2))
  {
    var n := c as int;
    var b := EncodeChar(c);
    assert b == [ToByte(0xC0 + n / 64), ToByte(0x80 + n % 64)];
    DecodeTwo(n);
    var bs := b + rest;
    assert bs[0] == b[0] && bs[1] == b[1];
  }

  lemma DecodeThreeBytes(c: char, rest: seq<JByte>)
    requires 0x800 <= c as int < 0x1_0000
    ensures DecodeChar(EncodeChar(c) + rest) == Some((c, 3))
  {
    var n := c as int;
    var b := EncodeChar(c);
    assert b == [ToByte(0xE0 + n / 4096), ToByte(0x80 + n / 64 % 64), ToByte(0x80 + n % 64)];
    DecodeThree(n);
    var bs := b + rest;
    assert bs[0] == b[0] && bs[1] == b[1] && bs[2] == b[2];
  }

  lemma DecodeFourBytes(c: char, rest: seq<JByte>)
    requires 0x1_0000 <= c as int
    ensures DecodeChar(EncodeChar(c) + rest) == Some((c, 4))
  {
    var n := c as int;
    var b := EncodeChar(c);
    assert b == [ToByte(0xF0 + n / 262144), ToByte(0x80 + n / 4096 % 64), ToByte(0x80 + n / 64 % 64), ToByte(0x80 + n % 64)];
    DecodeFour(n);
    var bs := b + rest;
    assert bs[0] == b[0] && bs[1] == b[1] && bs[2] == b[2] && bs[3] == b[3];
  }

  /** A character's bytes read back as that character, followed by anything. */
  lemma DecodeEncodeChar(c: char, rest: seq<JByte>)
    ensures DecodeChar(EncodeChar(c) + rest) == Some((c, |EncodeChar(c)|))
  {
    var n := c as int;
    if n < 0x80 {
    } else if n < 0x800 {
      DecodeTwoBytes(c, rest);
    } else if n < 0x1_0000 {
      DecodeThreeBytes(c, rest);
    } else {
      DecodeFourBytes(c, rest);
    }
  }

  /** Front-to-back form of Encode, for the decoding proof. */
  lemma EncodeCons(c: char, s: string)
    ensures Encode([c] + s) == EncodeChar(c) + Encode(s)
  {
    EncodeAppend([c], s);
    var one := [c];
    assert one[..0] == [];
    assert Encode(one) == Encode([]) + EncodeChar(c);
  }

  /** Decoding what was encoded gives the text back: the encoding is injective. */
  lemma {:induction false} DecodeOfEncode(s: string)
    ensures Decode(Encode(s)) == Some(s)
    decreases |s|
  {
    if s != [] {
      var c, rest := s[0], s[1..];
      assert s == [c] + rest;
      EncodeCons(c, rest);
      var bs := EncodeChar(c) + Encode(rest);
      DecodeEncodeChar(c, Encode(rest));
      assert bs[|EncodeChar(c)|..] == Encode(rest);
      DecodeOfEncode(rest);
    }
  }
}

// MigrationLogExportService: the CSV export of a project's migration logs.

module MigrationLogExportService {
  import opened JavaStr
  import opened Base16
  import Utf8

  /**
   * One row of the log repository, as exportToCsv reads it. The timestamp is
   * the text DATE_FORMATTER ("yyyy-MM-dd HH:mm:ss") makes of it; None is a
   * null timestamp.
   */
  datatype LogEntry = LogEntry(timestamp: Option<string>, level: Option<string>, message: Option<string>, details: Option<string>)

  /** The characters that make escapeCsv quote a value. */
  predicate NeedsQuotes(v: string)
  {
    ',' in v || '"' in v || '\n' in v || '\r' in v
  }

  /** A value quoted, each quote inside doubled. */
  function Quote(v: string): string
  {
    "\"" + Replace(v, "\"", "\"\"") + "\""
  }

  /**
   * escapeCsv: null gives the empty field, a value without a comma, quote or
   * line break is written as is, and anything else is quoted with each quote
   * doubled (section 2, rules 6 and 7, of RFC 4180).
   */
  function EscapeCsv(value: Option<string>): (r: string)
    ensures value.None? ==> r == ""
    ensures value.Some? && !NeedsQuotes(value.value) ==> r == value.value
    ensures value.Some? && NeedsQuotes(value.value) ==> r == Quote(value.value)
  {
    if value.None? then ""
    else
      var v := value.value;
      ContainsCharIff(v, ',');
      ContainsCharIff(v, '"');
      ContainsCharIff(v, '\n');
      ContainsCharIff(v, '\r');
      if Contains(v, ",") || Contains(v, "\"") || Contains(v, "\n") || Contains(v, "\r") then Quote(v) else v
  }

  /** The body of a quoted field per RFC 4180: every quote comes as a doubled pair. */
  predicate QuotedBody(s: string)
    decreases |s|
  {
    if s == [] then true
    else if s[0] == '"' then |s| >= 2 && s[1] == '"' && QuotedBody(s[2..])
    else QuotedBody(s[1..])
  }

  /** Doubling every quote of v, one character at a time from the front. */
  lemma DoubledCons(v: string)
    requires v != []
    ensures v[0] == '"' ==> Replace(v, "\"", "\"\"") == "\"\"" + Replace(v[1..], "\"", "\"\"")
    ensures v[0] != '"' ==> Replace(v, "\"", "\"\"") == [v[0]] + Replace(v[1..], "\"", "\"\"")
  {
    if v[0] == '"' {
      assert StartsWith(v, "\"");
    }
  }

  lemma {:induction false} DoubledIsQuotedBody(v: string)
    ensures QuotedBody(Replace(v, "\"", "\"\""))
    decreases |v|
  {
    if v != [] {
      var rest := Replace(v[1..], "\"", "\"\"");
      DoubledIsQuotedBody(v[1..]);
      DoubledCons(v);
      if v[0] == '"' {
        assert ("\"\"" + rest)[2..] == rest;
      } else {
        assert ([v[0]] + rest)[1..] == rest;
      }
    }
  }

  /**
   * A value escapeCsv quotes comes out as a valid RFC 4180 escaped field:
   * quotes around a body whose quotes come in pairs, and which reads back
   * as the value.
   */
  lemma EscapeQuoted(v: string)
    requires NeedsQuotes(v)
    ensures var r := EscapeCsv(Some(v));
            |r| >= 2 && r[0] == '"' && r[|r| - 1] == '"'
            && QuotedBody(r[1..|r| - 1]) && Undouble(r[1..|r| - 1], '"') == v
  {
    var body := Replace(v, "\"", "\"\"");
    var r := EscapeCsv(Some(v));
    assert r == "\"" + body + "\"";
    assert r[1..|r| - 1] == body;
    DoubledIsQuotedBody(v);
    UndoubleOfDouble(v, '"');
  }

  // ---------------------------------------------------------------- reading CSV back

  /**
   * The rest of a quoted field after its opening quote: the value, with each
   * doubled quote read as one, and what follows the closing quote.
   */
  function ParseQuoted(s: string): (r: Option<(string, string)>)
    ensures r.Some? ==> |r.value.1| < |s|
    decreases |s|
  {
    if s == [] then None
    else if s[0] == '"' then
      if |s| >= 2 && s[1] == '"' then
        match ParseQuoted(s[2..])
          case None => None
          case Some((v, rest)) => Some((['"'] + v, rest))
      else Some(([], s[1..]))
    else
      match ParseQuoted(s[1..])
        case None => None
        case Some((v, rest)) => Some(([s[0]] + v, rest))
  }

  /** The length of an unquoted field: up to the first comma or line feed. */
  function FieldLength(s: string): (n: nat)
    ensures n <= |s|
  {
    if s == [] || s[0] == ',' || s[0] == '\n' then 0 else 1 + FieldLength(s[1..])
  }

  /** One field from the front of s, quoted or not: its value and what follows it. */
  function ParseField(s: string): (r: Option<(string, string)>)
    ensures r.Some? ==> |r.value.1| <= |s|
  {
    if s != [] && s[0] == '"' then ParseQuoted(s[1..])
    else
      var n := FieldLength(s);
      Some((s[..n], s[n..]))
  }

  /** One record: fields separated by commas, ended by a line feed; its fields and what follows it. */
  function ParseRecord(s: string): (r: Option<(seq<string>, string)>)
    ensures r.Some? ==> |r.value.1| < |s|
    decreases |s|
  {
    match ParseField(s)
      case None => None
      case Some((f, rest)) =>
        if rest == [] then None
        else if rest[0] == ',' then
          match ParseRecord(rest[1..])
            case None => None
            case Some((fs, more)) => Some(([f] + fs, more))
        else if rest[0] == '\n' then Some(([f], rest[1..]))
        else None
  }

  /** Records up to the end of the text. */
  function ParseRecords(s: string): Option<seq<seq<string>>>
    decreases |s|
  {
    if s == [] then Some([])
    else match ParseRecord(s)
      case None => None
      case Some((fs, more)) =>
        match ParseRecords(more)
          case None => None
          case Some(records) => Some([fs] + records)
  }

  /** What may follow a field: the end, a comma or a line feed. */
  predicate FieldEnd(rest: string)
  {
    rest == [] || rest[0] == ',' || rest[0] == '\n'
  }

  lemma ParseQuotedPair(x: string, v: string, rest: string)
    requires ParseQuoted(x) == Some((v, rest))
    ensures ParseQuoted("\"\"" + x) == Some((['"'] + v, rest))
  {
    assert ("\"\"" + x)[2..] == x;
  }

  lemma ParseQuotedChar(c: char, x: string, v: string, rest: string)
    requires c != '"' && ParseQuoted(x) == Some((v, rest))
    ensures ParseQuoted([c] + x) == Some(([c] + v, rest))
  {
    assert ([c] + x)[1..] == x;
  }

  lemma ParseQuotedClose(rest: string)
    requires FieldEnd(rest)
    ensures ParseQuoted("\"" + rest) == Some(([], rest))
  {
    assert ("\"" + rest)[1..] == rest;
  }

  /** The doubled body, the closing quote and a field end read back as the value. */
  lemma {:induction false} ParseDoubled(v: string, rest: string)
    requires FieldEnd(rest)
    ensures ParseQuoted(Replace(v, "\"", "\"\"") + ("\"" + rest)) == Some((v, rest))
    decreases |v|
  {
    if v == [] {
      ParseQuotedClose(rest);
      assert Replace(v, "\"", "\"\"") == [];
      assert [] + ("\"" + rest) == "\"" + rest;
    } else {
      var tail := Replace(v[1..], "\"", "\"\"");
      var closing := "\"" + rest;
      ParseDoubled(v[1..], rest);
      DoubledCons(v);
      if v[0] == '"' {
        ParseQuotedPair(tail + closing, v[1..], rest);
        AppendAssoc("\"\"", tail, closing);
      } else {
        ParseQuotedChar(v[0], tail + closing, v[1..], rest);
        AppendAssoc([v[0]], tail, closing);
      }
      assert [v[0]] + v[1..] == v;
    }
  }

  /** The value a field written by escapeCsv stands for: null reads back as the empty field. */
  function OrEmpty(value: Option<string>): string
  {
    if value.None? then "" else value.value
  }

  lemma {:induction false} FieldLengthOf(e: string, rest: string)
    requires ',' !in e && '\n' !in e && FieldEnd(rest)
    ensures FieldLength(e + rest) == |e|
    decreases |e|
  {
    if e == [] {
      assert e + rest == rest;
    } else {
      assert (e + rest)[1..] == e[1..] + rest;
      FieldLengthOf(e[1..], rest);
    }
  }

  /** A field escapeCsv wrote reads back as its value, whatever record structure follows. */
  lemma FieldRoundTrip(value: Option<string>, rest: string)
    requires FieldEnd(rest)
    ensures ParseField(EscapeCsv(value) + rest) == Some((OrEmpty(value), rest))
  {
    var e := EscapeCsv(value);
    var s := e + rest;
    if value.Some? && NeedsQuotes(value.value) {
      var v := value.value;
      var body := Replace(v, "\"", "\"\"");
      assert s == "\"" + (body + ("\"" + rest));
      assert s[1..] == body + ("\"" + rest);
      ParseDoubled(v, rest);
    } else {
      assert e == OrEmpty(value) && ',' !in e && '\n' !in e && '"' !in e;
      FieldLengthOf(e, rest);
      assert s[..|e|] == e && s[|e|..] == rest;
      assert s != [] ==> s[0] != '"';
    }
  }

  /** A field and a comma ahead of a record extend the record by the field's value. */
  lemma RecordCons(value: Option<string>, tail: string, fs: seq<string>, more: string)
    requires ParseRecord(tail) == Some((fs, more))
    ensures ParseRecord(EscapeCsv(value) + ("," + tail)) == Some(([OrEmpty(value)] + fs, more))
  {
    FieldRoundTrip(value, "," + tail);
    assert ("," + tail)[1..] == tail;
  }

  /** A field and a line feed make a record of one value. */
  lemma RecordLast(value: Option<string>, more: string)
    ensures ParseRecord(EscapeCsv(value) + ("\n" + more)) == Some(([OrEmpty(value)], more))
  {
    FieldRoundTrip(value, "\n" + more);
    assert ("\n" + more)[1..] == more;
  }

  function EscapedFields(vs: seq<Option<string>>): (r: seq<string>)
    ensures |r| == |vs|
  {
    if vs == [] then [] else [EscapeCsv(vs[0])] + EscapedFields(vs[1..])
  }

  function Values(vs: seq<Option<string>>): (r: seq<string>)
    ensures |r| == |vs|
  {
    if vs == [] then [] else [OrEmpty(vs[0])] + Values(vs[1..])
  }

  /** Escaped values joined by commas and ended by a line feed read back as one record of the values. */
  lemma {:induction false} JoinedRecord(vs: seq<Option<string>>, more: string)
    requires vs != []
    ensures ParseRecord(Join(EscapedFields(vs), ",") + "\n" + more) == Some((Values(vs), more))
    decreases |vs|
  {
    var e := EscapeCsv(vs[0]);
    if |vs| == 1 {
      assert Join(EscapedFields(vs), ",") == e;
      AppendAssoc(e, "\n", more);
      RecordLast(vs[0], more);
      assert Values(vs) == [OrEmpty(vs[0])];
    } else {
      var j := Join(EscapedFields(vs[1..]), ",");
      assert Join(EscapedFields(vs), ",") == e + "," + j;
      var tail := j + "\n" + more;
      assert e + "," + j + "\n" + more == e + ("," + tail);
      JoinedRecord(vs[1..], more);
      RecordCons(vs[0], tail, Values(vs[1..]), more);
    }
  }

  // ---------------------------------------------------------------- the export

  const HEADER := "Timestamp,Level,Message,Details\n"

  /** The byte-order mark written ahead of the text (0xEF, 0xBB, 0xBF as Java bytes). */
  const BOM: seq<JByte> := [ToByte(0xEF), ToByte(0xBB), ToByte(0xBF)]

  /** A log's line: its four escaped fields, null details written as "". */
  function LogLine(e: LogEntry): string
    requires e.timestamp.Some?
  {
    EscapeCsv(e.timestamp) + "," + EscapeCsv(e.level) + "," + EscapeCsv(e.message) + ","
      + EscapeCsv(Some(if e.details != None then e.details.value else "")) + "\n"
  }

  predicate Timestamped(logs: seq<LogEntry>)
  {
    forall k :: 0 <= k < |logs| ==> logs[k].timestamp.Some?
  }

  /** The logs' lines, in repository order. */
  function LogLines(logs: seq<LogEntry>): string
    requires Timestamped(logs)
  {
    if logs == [] then "" else LogLine(logs[0]) + LogLines(logs[1..])
  }

  lemma {:induction false} LogLinesSnoc(logs: seq<LogEntry>, x: LogEntry)
    requires Timestamped(logs) && x.timestamp.Some?
    ensures Timestamped(logs + [x])
    ensures LogLines(logs + [x]) == LogLines(logs) + LogLine(x)
    decreases |logs|
  {
    var all := logs + [x];
    assert forall k :: 0 <= k < |logs| ==> all[k] == logs[k];
    if logs == [] {
      assert all[1..] == [];
    } else {
      assert all[1..] == logs[1..] + [x];
      LogLinesSnoc(logs[1..], x);
      AppendAssoc(LogLine(logs[0]), LogLines(logs[1..]), LogLine(x));
    }
  }

  /** The text exportToCsv writes. */
  function CsvText(logs: seq<LogEntry>): string
    requires Timestamped(logs)
  {
    HEADER + LogLines(logs)
  }

  /** One more log adds its line at the end of the text. */
  lemma CsvTextSnoc(logs: seq<LogEntry>, i: nat)
    requires i < |logs| && Timestamped(logs[..i]) && logs[i].timestamp.Some?
    ensures Timestamped(logs[..i + 1])
    ensures CsvText(logs[..i + 1]) == CsvText(logs[..i]) + LogLine(logs[i])
  {
    assert logs[..i + 1] == logs[..i] + [logs[i]];
    LogLinesSnoc(logs[..i], logs[i]);
    AppendAssoc(HEADER, LogLines(logs[..i]), LogLine(logs[i]));
  }

  /** Encoding more text after what was written extends the bytes by its encoding. */
  lemma AppendEncoded(text: string, line: string, bytes: seq<JByte>)
    requires bytes == BOM + Utf8.Encode(text)
    ensures bytes + Utf8.Encode(line) == BOM + Utf8.Encode(text + line)
  {
    Utf8.EncodeAppend(text, line);
    var written, more := Utf8.Encode(text), Utf8.Encode(line);
    assert (BOM + written) + more == BOM + (written + more);
  }

  /**
   * exportToCsv: the byte-order mark, then the UTF-8 bytes of the header and
   * of one line per log. A null timestamp makes the call fail (None).
   */
  method ExportToCsv(logs: seq<LogEntry>) returns (out: Option<seq<JByte>>)
    ensures Timestamped(logs) ==> out == Some(BOM + Utf8.Encode(CsvText(logs)))
    ensures !Timestamped(logs) ==> out.None?
  {
    var bytes := BOM + Utf8.Encode(HEADER);
    var i := 0;
    assert logs[..0] == [];
    assert CsvText(logs[..0]) == HEADER + "" == HEADER;
    while i < |logs|
      invariant 0 <= i <= |logs| && Timestamped(logs[..i])
      invariant bytes == BOM + Utf8.Encode(CsvText(logs[..i]))
    {
      if logs[i].timestamp.None? {
        assert !Timestamped(logs);
        return None;
      }
      var more := Utf8.Encode(LogLine(logs[i]));
      CsvTextSnoc(logs, i);
      AppendEncoded(CsvText(logs[..i]), LogLine(logs[i]), bytes);
      bytes := bytes + more;
      i := i + 1;
    }
    assert logs[..i] == logs;
    out := Some(bytes);
  }

  /** The output opens with EF BB BF and then the header's bytes, one per character. */
  lemma ExportOpening(logs: seq<LogEntry>)
    requires Timestamped(logs)
    ensures var out := BOM + Utf8.Encode(CsvText(logs));
            |out| >= 3 + |HEADER|
            && Unsigned(out[0]) == 0xEF && Unsigned(out[1]) == 0xBB && Unsigned(out[2]) == 0xBF
            && forall k :: 0 <= k < |HEADER| ==> out[3 + k] == HEADER[k] as int
  {
    assert Utf8.IsAscii(HEADER);
    Utf8.EncodeAscii(HEADER);
    Utf8.EncodeAppend(HEADER, LogLines(logs));
    var head := Utf8.Encode(HEADER);
    var out := BOM + Utf8.Encode(CsvText(logs));
    assert out == BOM + (head + Utf8.Encode(LogLines(logs)));
    assert forall k :: 0 <= k < |HEADER| ==> out[3 + k] == head[k];
  }

  /** The four values a log's line stands for. */
  function LogFields(e: LogEntry): seq<string>
    requires e.timestamp.Some?
  {
    [e.timestamp.value, OrEmpty(e.level), OrEmpty(e.message), OrEmpty(e.details)]
  }

  /** The four values a log's line is made of. */
  function LineValues(e: LogEntry): seq<Option<string>>
  {
    [e.timestamp, e.level, e.message, Some(if e.details != None then e.details.value else "")]
  }

  lemma LineIsJoin(e: LogEntry)
    requires e.timestamp.Some?
    ensures LogLine(e) == Join(EscapedFields(LineValues(e)), ",") + "\n"
  {
    var vs := LineValues(e);
    var f0, f1, f2, f3 := EscapeCsv(vs[0]), EscapeCsv(vs[1]), EscapeCsv(vs[2]), EscapeCsv(vs[3]);
    assert EscapedFields(vs) == [f0, f1, f2, f3] by {
      assert EscapedFields(vs[3..]) == [f3];
      assert EscapedFields(vs[2..]) == [f2] + EscapedFields(vs[3..]);
      assert EscapedFields(vs[1..]) == [f1] + EscapedFields(vs[2..]);
    }
    var fs := [f0, f1, f2, f3];
    assert Join(fs[3..], ",") == f3;
    assert Join(fs[2..], ",") == f2 + "," + f3;
    assert Join(fs[1..], ",") == f1 + "," + (f2 + "," + f3);
    assert Join(fs, ",") == f0 + "," + (f1 + "," + (f2 + "," + f3));
  }

  /** A log's line reads back as one record of its four values. */
  lemma LineRoundTrip(e: LogEntry, more: string)
    requires e.timestamp.Some?
    ensures ParseRecord(LogLine(e) + more) == Some((LogFields(e), more))
  {
    var vs := LineValues(e);
    LineIsJoin(e);
    JoinedRecord(vs, more);
    assert Values(vs) == LogFields(e) by {
      assert Values(vs[3..]) == [OrEmpty(vs[3])];
      assert Values(vs[2..]) == [OrEmpty(vs[2])] + Values(vs[3..]);
      assert Values(vs[1..]) == [OrEmpty(vs[1])] + Values(vs[2..]);
    }
  }

  /** The logs' values, one record each. */
  function LogRecords(logs: seq<LogEntry>): seq<seq<string>>
    requires Timestamped(logs)
  {
    if logs == [] then [] else [LogFields(logs[0])] + LogRecords(logs[1..])
  }

  lemma {:induction false} LinesRoundTrip(logs: seq<LogEntry>)
    requires Timestamped(logs)
    ensures ParseRecords(LogLines(logs)) == Some(LogRecords(logs))
    decreases |logs|
  {
    if logs != [] {
      var rest := LogLines(logs[1..]);
      LineRoundTrip(logs[0], rest);
      LinesRoundTrip(logs[1..]);
      assert LogLines(logs) == LogLine(logs[0]) + rest;
      assert LogLine(logs[0]) + rest != [] by {
        assert |LogLine(logs[0]) + rest| > |rest|;
      }
    }
  }

  /** A line of four values escapeCsv leaves alone. */
  lemma PlainLine(e: LogEntry)
    requires e.timestamp.Some? && e.level.Some? && e.message.Some? && e.details.Some?
    requires !NeedsQuotes(e.timestamp.value) && !NeedsQuotes(e.level.value)
    requires !NeedsQuotes(e.message.value) && !NeedsQuotes(e.details.value)
    ensures LogLine(e) == e.timestamp.value + "," + e.level.value + "," + e.message.value + "," + e.details.value + "\n"
  {
  }

  /** Four values escapeCsv leaves alone, as one line, read back as themselves. */
  lemma PlainRoundTrip(a: string, b: string, c: string, d: string, more: string)
    requires !NeedsQuotes(a) && !NeedsQuotes(b) && !NeedsQuotes(c) && !NeedsQuotes(d)
    ensures ParseRecord(a + "," + b + "," + c + "," + d + "\n" + more) == Some(([a, b, c, d], more))
  {
    var e := LogEntry(Some(a), Some(b), Some(c), Some(d));
    PlainLine(e);
    LineRoundTrip(e, more);
  }

  /** The header reads back as the four column names. */
  lemma HeaderRoundTrip(more: string)
    ensures ParseRecord(HEADER + more) == Some((["Timestamp", "Level", "Message", "Details"], more))
  {
    var a, b, c, d := "Timestamp", "Level", "Message", "Details";
    HeaderShape(a, b, c, d);
    PlainRoundTrip(a, b, c, d, more);
  }

  lemma HeaderShape(a: string, b: string, c: string, d: string)
    requires a == "Timestamp" && b == "Level" && c == "Message" && d == "Details"
    ensures HEADER == a + "," + b + "," + c + "," + d + "\n"
    ensures !NeedsQuotes(a) && !NeedsQuotes(b) && !NeedsQuotes(c) && !NeedsQuotes(d)
  {
    Plain(a);
    Plain(b);
    Plain(c);
    Plain(d);
  }

  lemma Plain(v: string)
    requires forall k :: 0 <= k < |v| ==> 'A' <= v[k] <= 'Z' || 'a' <= v[k] <= 'z'
    ensures !NeedsQuotes(v)
  {
  }

  /**
   * The whole text reads back as the header record and then one record per
   * log, holding its timestamp, level, message and details, in order.
   */
  lemma CsvRoundTrip(logs: seq<LogEntry>)
    requires Timestamped(logs)
    ensures ParseRecords(CsvText(logs)) == Some([["Timestamp", "Level", "Message", "Details"]] + LogRecords(logs))
  {
    HeaderRoundTrip(LogLines(logs));
    LinesRoundTrip(logs);
  }
}
