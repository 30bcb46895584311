/**
 * Identifier quoting shared by the pg2pg SQL generator, the pg2pg executor,
 * the schema migration service and the data validation service: existing
 * double quotes are dropped and the remaining text is wrapped in a fresh pair.
 */
module QuotedNames {
  import opened JavaStr

  /** The identifier with every '"' removed. */
  function Unquoted(id: string): (r: string)
    ensures '"' !in r
    ensures |r| <= |id|
    ensures '"' !in id ==> r == id
  {
    ReplaceCharRemoves(id, '"');
    if '"' !in id then ReplaceCharNoOp(id, '"', []); Replace(id, "\"", "")
    else Replace(id, "\"", "")
  }

  /** A double-quoted PostgreSQL identifier whose body holds no '"'. */
  predicate IsQuoted(r: string)
  {
    |r| >= 2 && r[0] == '"' && r[|r| - 1] == '"' && '"' !in r[1..|r| - 1]
  }

  /**
   * quoteIdentifier: null or empty gives the empty quoted identifier; any
   * other identifier loses its quotes and is wrapped in a new pair.
   */
  function QuoteIdentifier(id: Option<string>): (r: string)
    ensures IsQuoted(r)
    ensures id.None? || id.value == [] ==> r == "\"\""
    ensures id.Some? && '"' !in id.value ==> r == "\"" + id.value + "\""
  {
    if id.None? || id.value == [] then "\"\""
    else "\"" + Unquoted(id.value) + "\""
  }

  /** The body between the quotes is the identifier without its quotes. */
  lemma QuoteIdentifierBody(id: string)
    ensures var r := QuoteIdentifier(Some(id)); r[1..|r| - 1] == Unquoted(id)
  {
  }

  /** Quoting an already quoted identifier gives it back unchanged. */
  lemma QuoteIdentifierIdempotent(id: Option<string>)
    ensures QuoteIdentifier(Some(QuoteIdentifier(id))) == QuoteIdentifier(id)
  {
    var q := QuoteIdentifier(id);
    var body := q[1..|q| - 1];
    assert q == "\"" + body + "\"";
    ReplaceCharAppend("\"" + body, "\"", '"', []);
    ReplaceCharAppend("\"", body, '"', []);
    ReplaceCharNoOp(body, '"', []);
    assert Replace("\"", "\"", []) == [];
    assert Unquoted(q) == body;
  }

  /**
   * DataValidationService.quoteIdentifier: a db type equal to "postgresql"
   * ignoring case gets the quoted form; any other (or null) db type gets the
   * unquoted text upper-cased.
   */
  function QuoteForDatabase(dbType: Option<string>, id: Option<string>): (r: string)
    ensures id.None? || id.value == [] ==> r == "\"\""
    ensures id.Some? && id.value != [] && dbType.Some? && EqualsIgnoreCase(dbType.value, "postgresql") ==>
              r == QuoteIdentifier(id)
    ensures id.Some? && id.value != [] && !(dbType.Some? && EqualsIgnoreCase(dbType.value, "postgresql")) ==>
              r == Upper(Unquoted(id.value)) && '"' !in r
  {
    if id.None? || id.value == [] then "\"\""
    else if dbType.Some? && EqualsIgnoreCase(dbType.value, "postgresql") then "\"" + Unquoted(id.value) + "\""
    else Upper(Unquoted(id.value))
  }
}
