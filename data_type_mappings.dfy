// The front end's default Oracle-to-PostgreSQL type table and its lookup
// (frontend/lib/data-type-mappings.ts).

module DataTypeMappings {
  import opened JavaStr

  /** One row of the table: the Oracle spelling and its PostgreSQL type. */
  datatype TypeRule = Rule(oracleType: string, postgresType: string)

  /** defaultDataTypeMappings, in its declared order (oracleToPostgresTypes names the same array). */
  function DefaultDataTypeMappings(): seq<TypeRule>
  {
    [ Rule("NUMBER", "NUMERIC"),
      Rule("NUMBER(p)", "NUMERIC(p)"),
      Rule("NUMBER(p,s)", "NUMERIC(p,s)"),
      Rule("BINARY_FLOAT", "REAL"),
      Rule("BINARY_DOUBLE", "DOUBLE PRECISION"),
      Rule("FLOAT", "DOUBLE PRECISION"),
      Rule("INTEGER", "INTEGER"),
      Rule("SMALLINT", "SMALLINT"),
      Rule("VARCHAR2(n)", "VARCHAR(n)"),
      Rule("CHAR(n)", "CHAR(n)"),
      Rule("NVARCHAR2(n)", "VARCHAR(n)"),
      Rule("NCHAR(n)", "CHAR(n)"),
      Rule("CLOB", "TEXT"),
      Rule("NCLOB", "TEXT"),
      Rule("LONG", "TEXT"),
      Rule("DATE", "TIMESTAMP"),
      Rule("TIMESTAMP", "TIMESTAMP"),
      Rule("TIMESTAMP WITH TIME ZONE", "TIMESTAMPTZ"),
      Rule("TIMESTAMP WITH LOCAL TIME ZONE", "TIMESTAMPTZ"),
      Rule("INTERVAL YEAR TO MONTH", "INTERVAL"),
      Rule("INTERVAL DAY TO SECOND", "INTERVAL"),
      Rule("BLOB", "BYTEA"),
      Rule("RAW(n)", "BYTEA"),
      Rule("LONG RAW", "BYTEA"),
      Rule("BFILE", "BYTEA"),
      Rule("ROWID", "VARCHAR(18)"),
      Rule("UROWID", "VARCHAR(4000)"),
      Rule("XMLTYPE", "XML"),
      Rule("SDO_GEOMETRY", "GEOMETRY"),
      Rule("BOOLEAN", "BOOLEAN") ]
  }

  /** The text before the first '(' (split("(")[0]). */
  function BaseName(oracleType: string): (r: string)
    ensures '(' !in r && StartsWith(oracleType, r)
  {
    SplitAll(oracleType, '(')[0]
  }

  /** The find predicate: equal ignoring case, or the upper-cased input starts with the entry's base name. */
  predicate Matches(m: TypeRule, oracleType: string)
  {
    Upper(m.oracleType) == Upper(oracleType) || StartsWith(Upper(oracleType), BaseName(m.oracleType))
  }

  /** Array.find from index i on: the first entry at or after i that matches. */
  function FindFrom(ms: seq<TypeRule>, oracleType: string, i: nat): Option<TypeRule>
    decreases |ms| - i
  {
    if i >= |ms| then None
    else if Matches(ms[i], oracleType) then Some(ms[i])
    else FindFrom(ms, oracleType, i + 1)
  }

  /** find answers None exactly when no entry matches, and otherwise the first entry that does. */
  lemma {:induction false} FindFromSpec(ms: seq<TypeRule>, oracleType: string, i: nat)
    ensures var r := FindFrom(ms, oracleType, i);
      (r.None? <==> forall j :: i <= j < |ms| ==> !Matches(ms[j], oracleType)) &&
      (r.Some? ==> exists k :: FirstFrom(ms, oracleType, i, k) && ms[k] == r.value)
    decreases |ms| - i
  {
    if i < |ms| {
      if Matches(ms[i], oracleType) {
        assert FirstFrom(ms, oracleType, i, i);
      } else {
        FindFromSpec(ms, oracleType, i + 1);
        var r := FindFrom(ms, oracleType, i + 1);
        if r.Some? {
          var k :| FirstFrom(ms, oracleType, i + 1, k) && ms[k] == r.value;
          assert FirstFrom(ms, oracleType, i, k);
        }
      }
    }
  }

  /** Entry k matches and none in [i, k) does. */
  predicate FirstFrom(ms: seq<TypeRule>, oracleType: string, i: int, k: int)
  {
    0 <= i <= k < |ms| && Matches(ms[k], oracleType) && forall j :: i <= j < k ==> !Matches(ms[j], oracleType)
  }

  function Find(ms: seq<TypeRule>, oracleType: string): Option<TypeRule>
  {
    FindFrom(ms, oracleType, 0)
  }

  /** getPostgresType: the found entry's PostgreSQL type, or TEXT when nothing matches or it is empty. */
  function GetPostgresType(oracleType: string): string
  {
    match Find(DefaultDataTypeMappings(), oracleType)
      case None => "TEXT"
      case Some(m) => if m.postgresType == [] then "TEXT" else m.postgresType
  }

  /** Every entry of the table names a PostgreSQL type, so the TEXT fallback is taken only when nothing matches. */
  lemma TableTypesNamed()
    ensures var ms := DefaultDataTypeMappings();
      forall j :: 0 <= j < |ms| ==> |ms[j].postgresType| >= 3
  {
  }

  /** The lookup answers with the first matching entry's type, and TEXT when none matches. */
  lemma GetPostgresTypeFirst(oracleType: string, k: int)
    requires FirstFrom(DefaultDataTypeMappings(), oracleType, 0, k)
    ensures GetPostgresType(oracleType) == DefaultDataTypeMappings()[k].postgresType
  {
    var ms := DefaultDataTypeMappings();
    TableTypesNamed();
    FindFromSpec(ms, oracleType, 0);
    var r := Find(ms, oracleType);
    var k' :| FirstFrom(ms, oracleType, 0, k') && ms[k'] == r.value;
    FirstFromUnique(ms, oracleType, 0, k, k');
  }

  lemma GetPostgresTypeNone(oracleType: string)
    requires forall j :: 0 <= j < |DefaultDataTypeMappings()| ==> !Matches(DefaultDataTypeMappings()[j], oracleType)
    ensures GetPostgresType(oracleType) == "TEXT"
  {
    FindFromSpec(DefaultDataTypeMappings(), oracleType, 0);
  }

  lemma FirstFromUnique(ms: seq<TypeRule>, oracleType: string, i: int, k: int, k': int)
    requires FirstFrom(ms, oracleType, i, k) && FirstFrom(ms, oracleType, i, k')
    ensures k == k'
  {
  }

  /** An entry whose upper-case first letter differs from the input's cannot match it. */
  lemma NoMatchByLead(m: TypeRule, oracleType: string)
    requires m.oracleType != [] && IsUpperChar(m.oracleType[0])
    requires oracleType != [] && UpperChar(oracleType[0]) != m.oracleType[0]
    ensures !Matches(m, oracleType)
  {
    var o, u := m.oracleType, Upper(oracleType);
    assert Upper(o)[0] != u[0];
    BaseLead(o);
    var b := BaseName(o);
    if |b| <= |u| {
      assert u[..|b|][0] == u[0];
      assert u[..|b|] != b;
    }
  }

  /** The base name keeps the first character when that is not '('. */
  lemma BaseLead(o: string)
    requires o != [] && o[0] != '('
    ensures BaseName(o) != [] && BaseName(o)[0] == o[0]
  {
    match IndexOfChar(o, '(') {
      case None =>
      case Some(k) => assert k > 0;
    }
  }

  lemma SkipByLead(ms: seq<TypeRule>, oracleType: string, i: nat)
    requires i < |ms| && ms[i].oracleType != [] && IsUpperChar(ms[i].oracleType[0])
    requires oracleType != [] && UpperChar(oracleType[0]) != ms[i].oracleType[0]
    ensures FindFrom(ms, oracleType, i) == FindFrom(ms, oracleType, i + 1)
  {
    NoMatchByLead(ms[i], oracleType);
  }

  /** The entries before index k all start with an upper-case letter other than c. */
  predicate LeadsAvoid(ms: seq<TypeRule>, k: int, c: char)
  {
    k <= |ms| && forall j :: 0 <= j < k ==> ms[j].oracleType != [] && IsUpperChar(ms[j].oracleType[0]) && ms[j].oracleType[0] != c
  }

  /** When no earlier entry shares the input's first letter, entry k is the one found. */
  lemma FoundAfterLeads(ms: seq<TypeRule>, oracleType: string, k: int)
    requires oracleType != [] && 0 <= k < |ms| && LeadsAvoid(ms, k, UpperChar(oracleType[0]))
    requires Matches(ms[k], oracleType)
    ensures FirstFrom(ms, oracleType, 0, k)
  {
    forall j | 0 <= j < k ensures !Matches(ms[j], oracleType) {
      NoMatchByLead(ms[j], oracleType);
    }
  }

  lemma LeadsBeforeLong()
    ensures LeadsAvoid(DefaultDataTypeMappings(), 14, 'L')
  {
  }

  lemma LeadsBeforeTimestamp()
    ensures LeadsAvoid(DefaultDataTypeMappings(), 16, 'T')
  {
  }

  /** An entry that matches, with no earlier entry sharing the input's first letter, decides the lookup. */
  lemma EntryWins(t: string, k: int, lead: char)
    requires 0 <= k < |DefaultDataTypeMappings()| && t != [] && UpperChar(t[0]) == lead
    requires LeadsAvoid(DefaultDataTypeMappings(), k, lead) && Matches(DefaultDataTypeMappings()[k], t)
    ensures GetPostgresType(t) == DefaultDataTypeMappings()[k].postgresType
  {
    FoundAfterLeads(DefaultDataTypeMappings(), t, k);
    GetPostgresTypeFirst(t, k);
  }

  /** A text whose upper-cased spelling starts with a non-empty prefix starts with that prefix's letter. */
  lemma LeadOfPrefix(t: string, p: string)
    requires p != [] && StartsWith(Upper(t), p)
    ensures t != [] && UpperChar(t[0]) == p[0]
  {
    assert Upper(t)[..|p|][0] == p[0];
  }

  /** Every type whose upper-cased spelling starts with LONG stops at the LONG entry: TEXT. */
  lemma LongPrefixIsText(t: string)
    requires StartsWith(Upper(t), "LONG")
    ensures GetPostgresType(t) == "TEXT"
  {
    var e := DefaultDataTypeMappings()[14];
    assert e.oracleType == "LONG" && e.postgresType == "TEXT";
    LeadOfPrefix(t, "LONG");
    MatchesPrefix(e, t);
    LeadsBeforeLong();
    EntryWins(t, 14, 'L');
  }

  /** So "LONG RAW" maps to TEXT, not to the BYTEA of its own later entry. */
  lemma LongRawIsText(t: string)
    requires t == "LONG RAW"
    ensures GetPostgresType(t) == "TEXT"
  {
    UpperStarts(t, "LONG");
    LongPrefixIsText(t);
  }

  /** A literal's upper-cased spelling starts with the upper-case prefix it is written with. */
  lemma UpperStarts(t: string, p: string)
    requires |p| <= |t| && forall i :: 0 <= i < |p| ==> p[i] == t[i] && UpperChar(t[i]) == t[i]
    ensures StartsWith(Upper(t), p)
  {
    assert Upper(t)[..|p|] == p;
  }

  /** Every type whose upper-cased spelling starts with TIMESTAMP stops at the plain TIMESTAMP entry. */
  lemma TimestampPrefixIsTimestamp(t: string)
    requires StartsWith(Upper(t), "TIMESTAMP")
    ensures GetPostgresType(t) == "TIMESTAMP"
  {
    var e := DefaultDataTypeMappings()[16];
    assert e.oracleType == "TIMESTAMP" && e.postgresType == "TIMESTAMP";
    LeadOfPrefix(t, "TIMESTAMP");
    MatchesPrefix(e, t);
    LeadsBeforeTimestamp();
    EntryWins(t, 16, 'T');
  }

  /** So "TIMESTAMP WITH TIME ZONE" maps to TIMESTAMP, not to TIMESTAMPTZ. */
  lemma TimestampWithZoneIsTimestamp(t: string)
    requires t == "TIMESTAMP WITH TIME ZONE"
    ensures GetPostgresType(t) == "TIMESTAMP"
  {
    UpperStarts(t, "TIMESTAMP");
    TimestampPrefixIsTimestamp(t);
  }

  /** Every type whose upper-cased spelling starts with NUMBER is caught by the first entry: NUMERIC. */
  lemma NumberPrefixIsNumeric(t: string)
    requires StartsWith(Upper(t), "NUMBER")
    ensures GetPostgresType(t) == "NUMERIC"
  {
    var ms := DefaultDataTypeMappings();
    assert ms[0].oracleType == "NUMBER" && ms[0].postgresType == "NUMERIC";
    MatchesPrefix(ms[0], t);
    assert FirstFrom(ms, t, 0, 0);
    GetPostgresTypeFirst(t, 0);
  }

  /** So the written parameters of "NUMBER(10,2)" are lost: NUMERIC. */
  lemma NumberWithParamsIsNumeric(t: string)
    requires t == "NUMBER(10,2)"
    ensures GetPostgresType(t) == "NUMERIC"
  {
    assert Upper(t)[..6] == "NUMBER";
    NumberPrefixIsNumeric(t);
  }

  /** An entry without '(' whose spelling starts the upper-cased input matches it. */
  lemma MatchesPrefix(m: TypeRule, oracleType: string)
    requires '(' !in m.oracleType && StartsWith(Upper(oracleType), m.oracleType)
    ensures Matches(m, oracleType)
  {
  }



  /** The lookup sees its input only upper-cased: two spellings that differ in case get the same type. */
  lemma LookupIgnoresCase(t1: string, t2: string)
    requires Upper(t1) == Upper(t2)
    ensures GetPostgresType(t1) == GetPostgresType(t2)
  {
    FindFromIgnoresCase(DefaultDataTypeMappings(), t1, t2, 0);
  }

  lemma {:induction false} FindFromIgnoresCase(ms: seq<TypeRule>, t1: string, t2: string, i: nat)
    requires Upper(t1) == Upper(t2)
    ensures FindFrom(ms, t1, i) == FindFrom(ms, t2, i)
    decreases |ms| - i
  {
    if i < |ms| {
      FindFromIgnoresCase(ms, t1, t2, i + 1);
    }
  }
}
