// The front end's copy of the column naming strategies
// (frontend/lib/column-name-transformer.ts). It follows the back end's
// ColumnNameTransformer, but matches the strategy name exactly, detects word
// boundaries by comparing a character with its own case mappings, splits the
// way JavaScript does (keeping trailing empty pieces) and collapses
// JavaScript's wider class of white space.

module ScriptColumnNames {
  import opened JavaStr
  import opened NameWords
  import opened ColumnNameTransformer

  /** The strategy switch: an omitted strategy is lowercase, and a name must match exactly. */
  function ScriptNaming(strategy: Option<string>): Naming
  {
    if strategy.None? then Lowercase
    else
      var s := strategy.value;
      if s == "lowercase" then Lowercase
      else if s == "uppercase" then Uppercase
      else if s == "original" then Original
      else if s == "camelCase" then Camel
      else if s == "snake_case" then Snake
      else if s == "pascalCase" then Pascal
      else Lowercase
  }

  /** transformColumnName: an empty name is returned as it is. */
  function ScriptTransform(columnName: string, strategy: Option<string>): (r: string)
    ensures ScriptNaming(strategy).Lowercase? || ScriptNaming(strategy).Uppercase? || ScriptNaming(strategy).Original? ==>
              |r| == |columnName|
  {
    if columnName == [] then columnName
    else ApplyScript(ScriptNaming(strategy), columnName)
  }

  /** The strategy's transformation of a non-empty name; the three case strategies keep its length. */
  function ApplyScript(naming: Naming, name: string): (r: string)
    ensures naming.Lowercase? || naming.Uppercase? || naming.Original? ==> |r| == |name|
  {
    match naming
      case Lowercase => Lower(name)
      case Uppercase => Upper(name)
      case Original => name
      case Camel => ScriptCamelAsWritten(name)
      case Snake => ScriptSnakeAsWritten(name)
      case Pascal => ScriptPascal(name)
  }

  // ---------------------------------------------------------------- normalizeToWords

  /**
   * c === c.toUpperCase() && prev === prev.toLowerCase(): c is not a
   * lower-case letter and prev is not an upper-case one. A digit or any
   * other character passes both tests.
   */
  predicate ScriptBoundary(prev: char, c: char) { !IsLowerChar(c) && !IsUpperChar(prev) }

  /** The upper-cased text with '_' before each character that passes the boundary test. */
  function ScriptSplitAtBoundaries(s: string): string
  {
    if s == [] then []
    else
      ScriptSplitAtBoundaries(s[..|s| - 1]) +
      (if |s| > 1 && ScriptBoundary(s[|s| - 2], s[|s| - 1]) then "_" else "") +
      [UpperChar(s[|s| - 1])]
  }

  function ScriptNormalized(columnName: string): string
  {
    if columnName == [] then []
    else if '_' in columnName then CollapseRuns(Upper(columnName), ScriptSpaces)
    else ScriptSplitAtBoundaries(columnName)
  }

  /** The loop of normalizeToWords. */
  method ScriptNormalizeToWords(columnName: string) returns (r: string)
    ensures r == ScriptNormalized(columnName)
  {
    if columnName == [] {
      return "";
    }
    if '_' in columnName {
      return CollapseRuns(Upper(columnName), ScriptSpaces);
    }
    r := "";
    var i := 0;
    while i < |columnName|
      invariant 0 <= i <= |columnName|
      invariant r == ScriptSplitAtBoundaries(columnName[..i])
    {
      var c := columnName[i];
      assert columnName[..i + 1][..i] == columnName[..i];
      if i > 0 && ScriptBoundary(columnName[i - 1], c) {
        r := r + "_";
      }
      r := r + [UpperChar(c)];
      i := i + 1;
    }
    assert columnName[..i] == columnName;
  }

  // ---------------------------------------------------------------- camelCase

  /**
   * toCamelCase as written. JavaScript's split never returns an empty
   * array, so the words.length === 0 fallback never applies, and a name
   * made only of '_' comes out empty.
   */
  function ScriptCamelAsWritten(columnName: string): string
  {
    var normalized := ScriptNormalized(columnName);
    if normalized == [] then Lower(columnName)
    else
      var words := SplitAll(normalized, '_');
      Lower(words[0]) + CapWords(words[1..])
  }

  /**
   * toCamelCase as evidently intended, matching the back end: when the
   * split yields no word, the lower-cased name.
   */
  function ScriptCamel(columnName: string): string
  {
    var normalized := ScriptNormalized(columnName);
    if normalized == [] then Lower(columnName)
    else
      var words := SplitAll(normalized, '_');
      if AllEmpty(words) then Lower(columnName)
      else Lower(words[0]) + CapWords(words[1..])
  }

  /** The loop of toCamelCase as written: normalise, split on '_', join the words. */
  method ScriptToCamelCase(columnName: string) returns (r: string)
    ensures r == ScriptCamelAsWritten(columnName)
  {
    var normalized := ScriptNormalizeToWords(columnName);
    if normalized == [] {
      return Lower(columnName);
    }
    var words := SplitAll(normalized, '_');
    r := JoinCamel(words);
  }

  /** As written, "___" becomes the empty name; corrected, it stays "___" as in the back end. */
  lemma ScriptCamelOfUnderscores(name: string)
    requires name == "___"
    ensures ScriptCamelAsWritten(name) == ""
    ensures ScriptCamel(name) == "___"
  {
    UnderscoreFacts(name);
    UnderscoreSplit(name);
    var words := SplitAll(name, '_');
    assert AllEmpty(words);
    CapWordsTrailing(words[1..], 0);
  }

  /** The back end keeps "___": its split drops every empty piece and the name is lower-cased. */
  lemma BackendCamelOfUnderscores(name: string)
    requires name == "___"
    ensures CamelCased(name) == "___"
  {
    UnderscoreFacts(name);
    UnderscoreSplit(name);
    DropTrailingAllEmpty(SplitAll(name, '_'));
  }

  lemma UnderscoreFacts(name: string)
    requires name == "___"
    ensures Upper(name) == name && Lower(name) == name
    ensures ScriptNormalized(name) == name && NormalizedWords(name) == name
  {
    assert forall i :: 0 <= i < |name| ==> name[i] == '_';
  }

  lemma SplitAllLeading(s: string)
    requires s != [] && s[0] == '_'
    ensures SplitAll(s, '_') == [""] + SplitAll(s[1..], '_')
  {
    assert s[..0] == "";
  }

  lemma UnderscoreSplit(name: string)
    requires name == "___"
    ensures SplitAll(name, '_') == ["", "", "", ""]
  {
    var t1 := name[1..];
    var t2 := t1[1..];
    var t3 := t2[1..];
    assert t3 == [];
    SplitAllLeading(t2);
    SplitAllLeading(t1);
    SplitAllLeading(name);
  }

  /** With at least one word, the corrected camelCase of a non-empty name is never empty. */
  lemma ScriptCamelNonEmpty(name: string)
    requires name != []
    ensures ScriptCamel(name) != []
  {
    var normalized := ScriptNormalized(name);
    if normalized != [] {
      var words := SplitAll(normalized, '_');
      if !AllEmpty(words) {
        var k :| 0 <= k < |words| && words[k] != [];
        if k > 0 {
          CapWordsHasWord(words[1..], k - 1);
        }
      }
    }
  }

  // ---------------------------------------------------------------- snake_case

  /** '_' before every character after the first that passes c === c.toUpperCase(), then lower-cased. */
  function ScriptSnakeBody(s: string): string
  {
    if s == [] then []
    else
      var c := s[|s| - 1];
      ScriptSnakeBody(s[..|s| - 1]) + (if !IsLowerChar(c) && |s| > 1 then "_" else "") + [LowerChar(c)]
  }

  /** toSnakeCase as written: the normalised text is upper-cased, so every character passes the test. */
  function ScriptSnakeAsWritten(columnName: string): string
  {
    var normalized := ScriptNormalized(columnName);
    if normalized == [] then Lower(columnName)
    else if '_' in normalized then Lower(normalized)
    else ScriptSnakeBody(normalized)
  }

  /** The loop of toSnakeCase as written. */
  method ScriptToSnakeCase(columnName: string) returns (r: string)
    ensures r == ScriptSnakeAsWritten(columnName)
  {
    var normalized := ScriptNormalizeToWords(columnName);
    if normalized == [] {
      return Lower(columnName);
    }
    if '_' in normalized {
      return Lower(normalized);
    }
    r := "";
    var i := 0;
    while i < |normalized|
      invariant 0 <= i <= |normalized|
      invariant r == ScriptSnakeBody(normalized[..i])
    {
      var c := normalized[i];
      assert normalized[..i + 1][..i] == normalized[..i];
      if !IsLowerChar(c) && i > 0 {
        r := r + "_";
      }
      r := r + [LowerChar(c)];
      i := i + 1;
    }
    assert normalized[..i] == normalized;
  }

  /** toSnakeCase as evidently intended: the normalised words lower-cased. */
  function ScriptSnake(columnName: string): string
  {
    var normalized := ScriptNormalized(columnName);
    if normalized == [] then Lower(columnName) else Lower(normalized)
  }

  /** As written, a single upper-case word is split into letters. */
  lemma ScriptSnakeSplitsLetters(name: string)
    requires name == "ID"
    ensures ScriptSnakeAsWritten(name) == "i_d"
    ensures ScriptSnake(name) == "id"
  {
    assert name[..1] == "I" && "I"[..0] == [];
    assert ScriptSplitAtBoundaries("I") == "I";
    assert ScriptNormalized(name) == "ID";
    assert ScriptSnakeBody("I") == "i";
    assert ScriptSnakeBody(name) == "i" + "_" + "d";
    assert Lower(name) == "id";
  }

  /**
   * For a name of letters without '_', the corrected snake_case keeps the
   * name's letters lower-cased, with a '_' exactly at each lower-to-upper
   * boundary, as in the back end.
   */
  lemma ScriptSnakeWords(name: string)
    requires name != [] && '_' !in name && IsLetterName(name)
    ensures Without(ScriptSnake(name), '_') == Lower(name)
    ensures '_' in ScriptSnake(name) <==> HasBoundary(name)
  {
    NormalizedAgree(name);
    SnakeCasedWords(name);
  }

  // ---------------------------------------------------------------- PascalCase

  function ScriptPascal(columnName: string): string
  {
    var normalized := ScriptNormalized(columnName);
    if normalized == [] then CapitalizeFirst(columnName)
    else CapWords(SplitAll(normalized, '_'))
  }

  // ---------------------------------------------------------------- properties

  /** An empty name comes back unchanged, whatever the strategy. */
  lemma ScriptEmptyNameUnchanged(strategy: Option<string>)
    ensures ScriptTransform([], strategy) == []
  {
  }

  /**
   * The strategy name is matched exactly: the back end's case-insensitive
   * spellings fall back to lowercase here.
   */
  lemma ScriptStrategyExact(name: string)
    requires name != []
    ensures ScriptTransform(name, Some("camelcase")) == Lower(name)
    ensures ScriptTransform(name, Some("CamelCase")) == Lower(name)
    ensures ScriptTransform(name, Some("pascalcase")) == Lower(name)
    ensures ScriptTransform(name, None) == Lower(name)
  {
  }

  /** A digit after a letter starts a word here but not in the back end. */
  lemma DigitBoundaryDiffers(name: string)
    requires name == "user1"
    ensures ScriptNormalized(name) == "USER_1" && ScriptSnake(name) == "user_1"
    ensures NormalizedWords(name) == "USER1" && SnakeCased(name) == "user1"
  {
    ScriptDigitWord(name);
    BackendDigitWord(name);
  }

  lemma ScriptDigitWord(name: string)
    requires name == "user1"
    ensures ScriptNormalized(name) == "USER_1" && ScriptSnake(name) == "user_1"
  {
    var p := name[..4];
    assert name[..|name| - 1] == p && name[|name| - 1] == '1';
    LowerWordUnsplit(p);
    UserUpper(p);
    assert ScriptBoundary('r', '1');
    assert Lower("USER_1") == "user_1";
  }

  lemma BackendDigitWord(name: string)
    requires name == "user1"
    ensures NormalizedWords(name) == "USER1" && SnakeCased(name) == "user1"
  {
    var p := name[..4];
    assert name[..|name| - 1] == p && name[|name| - 1] == '1';
    LowerWordUnsplit(p);
    UserUpper(p);
    assert !WordBoundary('r', '1');
    assert Lower("USER1") == "user1";
  }

  lemma UserUpper(p: string)
    requires p == "user"
    ensures Upper(p) == "USER"
  {
  }

  /** A word of lower-case letters gains no '_' on either side. */
  lemma {:induction false} LowerWordUnsplit(s: string)
    requires forall i :: 0 <= i < |s| ==> IsLowerChar(s[i])
    ensures ScriptSplitAtBoundaries(s) == Upper(s)
    ensures SplitAtBoundaries(s) == Upper(s)
  {
    if s != [] {
      var init := s[..|s| - 1];
      var last := s[|s| - 1];
      assert forall i :: 0 <= i < |init| ==> init[i] == s[i];
      LowerWordUnsplit(init);
      assert s == init + [last];
      UpperAppend(init, [last]);
      assert Upper([last]) == [UpperChar(last)];
    }
  }

  // ---------------------------------------------------------------- agreement with the back end

  /** On letters, the two boundary tests coincide. */
  lemma {:induction false} BoundariesAgree(s: string)
    requires forall i :: 0 <= i < |s| ==> IsLetterChar(s[i])
    ensures ScriptSplitAtBoundaries(s) == SplitAtBoundaries(s)
  {
    if s != [] {
      var init := s[..|s| - 1];
      assert forall i :: 0 <= i < |init| ==> init[i] == s[i];
      BoundariesAgree(init);
      if |s| > 1 {
        assert ScriptBoundary(s[|s| - 2], s[|s| - 1]) == WordBoundary(s[|s| - 2], s[|s| - 1]);
      }
    }
  }

  /** For names of letters and '_', both sides normalise alike. */
  lemma NormalizedAgree(name: string)
    requires IsLetterName(name)
    ensures ScriptNormalized(name) == NormalizedWords(name)
  {
    if name != [] {
      if '_' in name {
        var u := Upper(name);
        forall i | 0 <= i < |u| ensures !IsScriptSpace(u[i]) && !IsRegexSpace(u[i]) {
          assert IsNameChar(name[i]);
        }
      } else {
        forall i | 0 <= i < |name| ensures IsLetterChar(name[i]) {
          assert IsNameChar(name[i]);
        }
        BoundariesAgree(name);
      }
    }
  }

  /** Dropping trailing empty words from words that are all empty leaves none. */
  lemma {:induction false} DropTrailingAllEmpty(ws: seq<string>)
    requires AllEmpty(ws)
    ensures DropTrailingEmpty(ws) == []
    decreases |ws|
  {
    if ws != [] {
      var init := ws[..|ws| - 1];
      assert AllEmpty(init) by {
        forall i | 0 <= i < |init| ensures init[i] == [] { assert init[i] == ws[i]; }
      }
      DropTrailingAllEmpty(init);
    }
  }

  /** A non-empty word makes the capitalised run non-empty. */
  lemma {:induction false} CapWordsHasWord(ws: seq<string>, k: nat)
    requires k < |ws| && ws[k] != []
    ensures CapWords(ws) != []
    decreases |ws|
  {
    var init := ws[..|ws| - 1];
    if k < |ws| - 1 {
      assert init[k] == ws[k];
      CapWordsHasWord(init, k);
    } else {
      assert |CapWord(ws[k])| > 0;
    }
  }

  /** The words both sides split a normalised text into give the same camelCase. */
  lemma CamelWordsAgree(columnName: string, n: string)
    requires n == ScriptNormalized(columnName) && n == NormalizedWords(columnName) && n != []
    ensures ScriptCamel(columnName) == CamelCased(columnName)
  {
    CamelSplitsAgree(n);
  }

  /** Splitting a non-empty text the JavaScript way and the Java way gives the same camelCase words. */
  lemma CamelSplitsAgree(n: string)
    requires n != []
    ensures AllEmpty(SplitAll(n, '_')) <==> |JavaSplit(n, '_')| == 0
    ensures !AllEmpty(SplitAll(n, '_')) ==>
              var ws := SplitAll(n, '_');
              var js := JavaSplit(n, '_');
              Lower(ws[0]) + CapWords(ws[1..]) == Lower(js[0]) + CapWords(js[1..])
  {
    var ws := SplitAll(n, '_');
    var js := JavaSplit(n, '_');
    if '_' in n {
      assert js == DropTrailingEmpty(ws);
      if AllEmpty(ws) {
        DropTrailingAllEmpty(ws);
      } else {
        TrailingDropKeepsCamel(ws, js);
      }
    } else {
      assert ws == [n];
      assert !AllEmpty(ws) by { assert ws[0] == n; }
    }
  }

  /** Dropping the trailing empty words from words that are not all empty keeps their camelCase. */
  lemma TrailingDropKeepsCamel(ws: seq<string>, js: seq<string>)
    requires js == DropTrailingEmpty(ws) && !AllEmpty(ws)
    ensures js != [] && Lower(ws[0]) + CapWords(ws[1..]) == Lower(js[0]) + CapWords(js[1..])
  {
    var k :| 0 <= k < |ws| && ws[k] != [];
    assert k < |js|;
    assert js[0] == ws[0];
    var rest := ws[1..];
    assert rest[..|js| - 1] == js[1..];
    CapWordsTrailing(rest, |js| - 1);
  }

  /** The words both sides split a normalised text into give the same PascalCase. */
  lemma PascalWordsAgree(n: string)
    ensures CapWords(SplitAll(n, '_')) == CapWords(JavaSplit(n, '_'))
  {
    var ws := SplitAll(n, '_');
    if '_' in n {
      var js := DropTrailingEmpty(ws);
      CapWordsTrailing(ws, |js|);
    } else {
      assert ws == [n];
    }
  }

  /**
   * For a name of letters and '_', each of the six strategy names the front
   * end offers (or none) gives, in the front end, the back end's result,
   * except camelCase of a name made only of '_', which the front end empties.
   */
  lemma AgreesWithBackend(name: string, strategy: Option<string>)
    requires IsLetterName(name)
    requires strategy.None? || strategy.value in StrategyNames()
    ensures Transform(Some(name), strategy) == Some(ScriptTransform(name, strategy)) <==>
            !(strategy == Some("camelCase") && name != [] && OnlyUnderscores(name))
  {
    if name != [] {
      var naming := ScriptNaming(strategy);
      NamingAgrees(strategy);
      ApplyAgrees(naming, name);
      assert Transform(Some(name), strategy) == Some(Apply(naming, name));
      assert ScriptTransform(name, strategy) == ApplyScript(naming, name);
      CamelNaming(strategy);
    }
  }

  /** Only the exact spelling camelCase selects camelCase. */
  lemma CamelNaming(strategy: Option<string>)
    ensures ScriptNaming(strategy) == Camel <==> strategy == Some("camelCase")
  {
    if strategy == Some("camelCase") {
      var s := strategy.value;
      assert s != "lowercase" by { assert s[0] != "lowercase"[0]; }
      assert s != "uppercase" by { assert s[0] != "uppercase"[0]; }
      assert s != "original" by { assert s[0] != "original"[0]; }
    }
  }

  /**
   * Each strategy, as the two programs run it, computes the same name on
   * both sides for a name of letters and '_', except camelCase of a
   * non-empty name made only of '_'.
   */
  lemma ApplyAgrees(naming: Naming, name: string)
    requires IsLetterName(name)
    ensures Apply(naming, name) == ApplyScript(naming, name) <==>
            !(naming == Camel && name != [] && OnlyUnderscores(name))
  {
    NormalizedAgree(name);
    var n := ScriptNormalized(name);
    match naming {
      case Camel =>
        CamelAsWrittenAgrees(name);
      case Snake =>
        if n != [] && '_' !in n {
          SnakeTextUpper(name);
          SnakeBodiesAgree(n);
        }
      case Pascal =>
        PascalWordsAgree(n);
      case _ =>
    }
  }

  predicate OnlyUnderscores(s: string)
  {
    forall i :: 0 <= i < |s| ==> s[i] == '_'
  }

  /** The two camelCase programs differ exactly on the names made only of '_'. */
  lemma CamelAsWrittenAgrees(name: string)
    requires IsLetterName(name)
    ensures CamelCased(name) == ScriptCamelAsWritten(name) <==> !(name != [] && OnlyUnderscores(name))
  {
    NormalizedAgree(name);
    var n := ScriptNormalized(name);
    UnderscoreName(name);
    EmptyWordsMeanUnderscores(name);
    if n != [] {
      var ws := SplitAll(n, '_');
      if AllEmpty(ws) {
        DropTrailingAllEmpty(ws);
        CapWordsTrailing(ws[1..], 0);
        assert ScriptCamelAsWritten(name) == Lower(ws[0]) + CapWords(ws[1..]);
        assert ws[1..][..0] == [];
        assert |ScriptCamelAsWritten(name)| == 0 && |CamelCased(name)| > 0;
      } else {
        CamelSplitsAgree(n);
      }
    }
  }

  /** A name made only of '_' normalises to itself on both sides and splits into empty words only. */
  lemma UnderscoreName(name: string)
    ensures name != [] && OnlyUnderscores(name) ==>
      Lower(name) == name && ScriptNormalized(name) == name && NormalizedWords(name) == name &&
      AllEmpty(SplitAll(name, '_'))
  {
    if name != [] && OnlyUnderscores(name) {
      assert name[0] == '_';
      assert Upper(name) == name && Lower(name) == name;
      assert forall i :: 0 <= i < |name| ==> !IsSpaceOf(ScriptSpaces, name[i]) && !IsSpaceOf(JavaSpaces, name[i]);
      SplitAllUnderscores(name);
    }
  }

  lemma {:induction false} SplitAllUnderscores(s: string)
    requires OnlyUnderscores(s)
    ensures AllEmpty(SplitAll(s, '_'))
    decreases |s|
  {
    if s == [] {
      assert SplitAll(s, '_') == [s];
    } else {
      SplitAllLeading(s);
      SplitAllUnderscores(s[1..]);
      var rest := SplitAll(s[1..], '_');
      forall i | 0 <= i < |[""] + rest| ensures ([""] + rest)[i] == [] {
        if i > 0 { assert ([""] + rest)[i] == rest[i - 1]; }
      }
    }
  }

  /** Only a text made of '_' splits into empty words only. */
  lemma {:induction false} EmptyWordsOnlyUnderscores(s: string)
    requires AllEmpty(SplitAll(s, '_'))
    ensures OnlyUnderscores(s)
    decreases |s|
  {
    match IndexOfChar(s, '_')
      case None =>
        assert SplitAll(s, '_')[0] == s;
      case Some(k) =>
        var ws := SplitAll(s, '_');
        assert ws[0] == s[..k];
        assert k == 0;
        var rest := SplitAll(s[1..], '_');
        assert ws == [s[..0]] + rest;
        assert AllEmpty(rest) by {
          forall i | 0 <= i < |rest| ensures rest[i] == [] { assert rest[i] == ws[i + 1]; }
        }
        EmptyWordsOnlyUnderscores(s[1..]);
        forall i | 0 <= i < |s| ensures s[i] == '_' {
          if i > 0 { assert s[i] == s[1..][i - 1]; }
        }
  }

  /** For a name of letters and '_', a normalised text that splits into empty words only comes from a name of '_' only. */
  lemma EmptyWordsMeanUnderscores(name: string)
    requires IsLetterName(name)
    ensures ScriptNormalized(name) != [] && AllEmpty(SplitAll(ScriptNormalized(name), '_')) ==>
      name != [] && OnlyUnderscores(name)
  {
    var n := ScriptNormalized(name);
    if n != [] && AllEmpty(SplitAll(n, '_')) {
      EmptyWordsOnlyUnderscores(n);
      NormalizedUnderscores(name);
    }
  }

  /** Normalising keeps a letter of the name as a letter. */
  lemma NormalizedUnderscores(name: string)
    requires IsLetterName(name)
    ensures OnlyUnderscores(ScriptNormalized(name)) ==> OnlyUnderscores(name)
  {
    if name != [] {
      var n := ScriptNormalized(name);
      if '_' in name {
        var u := Upper(name);
        forall i | 0 <= i < |u| ensures !IsSpaceOf(ScriptSpaces, u[i]) {
          assert IsNameChar(name[i]);
        }
        assert n == u;
        forall i | 0 <= i < |name| && OnlyUnderscores(n) ensures name[i] == '_' {
          assert IsNameChar(name[i]) && u[i] == '_';
        }
      } else {
        var last := name[|name| - 1];
        assert IsNameChar(last);
        assert n[|n| - 1] == UpperChar(last);
      }
    }
  }

  /** Without a '_' in it, the normalised text of a name of letters is made of upper-case letters. */
  lemma SnakeTextUpper(name: string)
    requires IsLetterName(name)
    ensures '_' !in NormalizedWords(name) ==>
      forall i :: 0 <= i < |NormalizedWords(name)| ==> IsUpperChar(NormalizedWords(name)[i])
  {
    var n := NormalizedWords(name);
    if name != [] {
      if '_' in name {
        var k :| 0 <= k < |name| && name[k] == '_';
        var u := Upper(name);
        forall i | 0 <= i < |u| ensures !IsSpaceOf(JavaSpaces, u[i]) {
          assert IsNameChar(name[i]);
        }
        assert n == u && n[k] == '_';
      } else {
        SplitAtBoundariesShape(name);
        forall i | 0 <= i < |n| && n[i] != '_' ensures IsUpperChar(n[i]) {
          var j :| 0 <= j < |name| && n[i] == UpperChar(name[j]);
          assert IsNameChar(name[j]);
        }
      }
    }
  }

  /** On upper-case letters, the two snake loops insert '_' at the same places. */
  lemma {:induction false} SnakeBodiesAgree(s: string)
    requires forall i :: 0 <= i < |s| ==> IsUpperChar(s[i])
    ensures ScriptSnakeBody(s) == SnakeBody(s)
    decreases |s|
  {
    if s != [] {
      var init := s[..|s| - 1];
      assert forall i :: 0 <= i < |init| ==> init[i] == s[i];
      SnakeBodiesAgree(init);
    }
  }

  function StrategyNames(): seq<string>
  {
    ["lowercase", "uppercase", "original", "camelCase", "snake_case", "pascalCase"]
  }

  /** The six front-end spellings select the same strategy in the back end. */
  lemma NamingAgrees(strategy: Option<string>)
    requires strategy.None? || strategy.value in StrategyNames()
    ensures JavaNaming(strategy) == ScriptNaming(strategy)
  {
    if strategy.None? {
      DefaultKey();
    } else {
      var s := strategy.value;
      if s == "lowercase" { LowercaseKey(s); }
      else if s == "uppercase" { UppercaseKey(s); }
      else if s == "original" { OriginalKey(s); }
      else if s == "camelCase" { CamelKey(s); }
      else if s == "snake_case" { SnakeKey(s); }
      else { PascalKey(s); }
    }
  }

  lemma LowercaseKey(s: string) requires s == "lowercase" ensures JavaNaming(Some(s)) == Lowercase { DefaultKey(); }
  lemma UppercaseKey(s: string) requires s == "uppercase" ensures JavaNaming(Some(s)) == Uppercase { LowerKeeps(s); }
  lemma OriginalKey(s: string) requires s == "original" ensures JavaNaming(Some(s)) == Original { LowerKeeps(s); }
  lemma SnakeKey(s: string) requires s == "snake_case" ensures JavaNaming(Some(s)) == Snake
  {
    assert Lower(s) == "snake_case";
  }
  lemma CamelKey(s: string) requires s == "camelCase" ensures JavaNaming(Some(s)) == Camel
  {
    assert Lower(s) == "camelcase";
  }
  lemma PascalKey(s: string) requires s == "pascalCase" ensures JavaNaming(Some(s)) == Pascal
  {
    assert Lower(s) == "pascalcase";
  }

  lemma LowerKeeps(s: string)
    requires forall i :: 0 <= i < |s| ==> !IsUpperChar(s[i])
    ensures Lower(s) == s
  {
  }
}
