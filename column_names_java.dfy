// Column naming strategies: the word helpers both implementations share, and
// the back end's ColumnNameTransformer (util/ColumnNameTransformer.java).

module NameWords {
  import opened JavaStr

  /**
   * The word lower-cased with its first character then upper-cased (the
   * lower-cased word's head is LowerChar of the word's head); the empty word
   * stays empty.
   */
  function CapWord(w: string): (r: string)
    ensures |r| == |w|
  {
    if w == [] then [] else [UpperChar(LowerChar(w[0]))] + Lower(w[1..])
  }

  /** Every word capitalised and run together, empty words contributing nothing. */
  function CapWords(ws: seq<string>): string
  {
    if ws == [] then [] else CapWords(ws[..|ws| - 1]) + CapWord(ws[|ws| - 1])
  }

  lemma {:induction false} CapWordsAppend(a: seq<string>, b: seq<string>)
    ensures CapWords(a + b) == CapWords(a) + CapWords(b)
    decreases |b|
  {
    if b == [] {
      assert a + b == a;
      assert CapWords(b) == [];
    } else {
      var init, last := b[..|b| - 1], b[|b| - 1];
      var ab := a + b;
      assert ab[..|ab| - 1] == a + init && ab[|ab| - 1] == last by {
        assert ab == (a + init) + [last];
      }
      CapWordsAppend(a, init);
      var x, y, z := CapWords(a), CapWords(init), CapWord(last);
      assert CapWords(ab) == (x + y) + z;
      assert CapWords(b) == y + z;
      AppendAssoc(x, y, z);
    }
  }

  /** The word toCamelCase builds from the lower-cased word is CapWord of it. */
  lemma CapWordOfLower(w: string)
    requires w != []
    ensures var word := Lower(w);
      [UpperChar(word[0])] + (if |word| > 1 then word[1..] else []) == CapWord(w)
  {
    var word := Lower(w);
    assert word == [LowerChar(w[0])] + Lower(w[1..]);
    assert word[1..] == Lower(w[1..]);
  }

  lemma CapWordsSingle(w: string)
    ensures CapWords([w]) == CapWord(w)
  {
    assert [w][..0] == [];
  }

  lemma CapWordsPair(a: string, b: string)
    ensures CapWords([a, b]) == CapWord(a) + CapWord(b)
  {
    var none: seq<string> := [];
    assert [a] == none + [a];
    assert [a, b] == [a] + [b];
    CapWordsSnoc(none, a);
    CapWordsSnoc([a], b);
  }

  lemma CapWordsSnoc(ws: seq<string>, w: string)
    ensures CapWords(ws + [w]) == CapWords(ws) + CapWord(w)
  {
    var x := ws + [w];
    assert x[..|x| - 1] == ws && x[|x| - 1] == w;
  }

  /** An empty word between others changes nothing: repeated separators are dropped. */
  lemma EmptyWordDropped(a: seq<string>, b: seq<string>)
    ensures CapWords(a + [[]] + b) == CapWords(a + b)
  {
    var a1 := a + [[]];
    assert a + [[]] + b == a1 + b;
    CapWordsAppend(a1, b);
    CapWordsAppend(a, b);
    assert a1[..|a1| - 1] == a && a1[|a1| - 1] == [];
    var x := CapWords(a);
    assert CapWords(a1) == x + [];
    assert x + [] == x;
  }

  /** Trailing empty words contribute nothing. */
  lemma {:induction false} CapWordsTrailing(ws: seq<string>, n: nat)
    requires n <= |ws|
    requires forall i :: n <= i < |ws| ==> ws[i] == []
    ensures CapWords(ws) == CapWords(ws[..n])
    decreases |ws|
  {
    if |ws| > n {
      var init := ws[..|ws| - 1];
      assert init[..n] == ws[..n];
      CapWordsTrailing(init, n);
    } else {
      assert ws[..n] == ws;
    }
  }

  predicate AllEmpty(ws: seq<string>)
  {
    forall i :: 0 <= i < |ws| ==> ws[i] == []
  }

  /** Which regex engine's \\s: Java's [ \\t\\n\\x0B\\f\\r] or JavaScript's wider class. */
  datatype SpaceClass = JavaSpaces | ScriptSpaces

  /** JavaScript's \\s: the Java characters plus the Unicode spaces and the BOM. */
  predicate IsScriptSpace(c: char)
  {
    IsRegexSpace(c) || c == '\U{00A0}' || c == '\U{1680}' || '\U{2000}' <= c <= '\U{200A}' ||
    c == '\U{2028}' || c == '\U{2029}' || c == '\U{202F}' || c == '\U{205F}' || c == '\U{3000}' || c == '\U{FEFF}'
  }

  predicate IsSpaceOf(k: SpaceClass, c: char)
  {
    if k == JavaSpaces then IsRegexSpace(c) else IsScriptSpace(c)
  }

  /** Each maximal run of white space replaced by one '_' (replaceAll("\\s+", "_")). */
  function CollapseRuns(s: string, k: SpaceClass): (r: string)
    ensures forall i :: 0 <= i < |r| ==> !IsSpaceOf(k, r[i])
    ensures (forall i :: 0 <= i < |s| ==> !IsSpaceOf(k, s[i])) ==> r == s
    decreases |s|
  {
    if s == [] then []
    else if IsSpaceOf(k, s[0]) then "_" + CollapseRuns(SkipRun(s, k), k)
    else [s[0]] + CollapseRuns(s[1..], k)
  }

  /** The text after its leading run of white space. */
  function SkipRun(s: string, k: SpaceClass): (r: string)
    ensures |r| < |s| || (r == s && (s == [] || !IsSpaceOf(k, s[0])))
    ensures r != [] ==> !IsSpaceOf(k, r[0])
  {
    if s != [] && IsSpaceOf(k, s[0]) then SkipRun(s[1..], k) else s
  }

  predicate IsNameChar(c: char) { IsLetterChar(c) || c == '_' }

  predicate IsLetterName(s: string) { forall i :: 0 <= i < |s| ==> IsNameChar(s[i]) }
}

module ColumnNameTransformer {
  import opened JavaStr
  import opened NameWords

  /** The six strategies the transformer knows. */
  datatype Naming = Lowercase | Uppercase | Original | Camel | Snake | Pascal

  /**
   * The strategy transform applies: null or empty means lowercase, the name
   * is matched case-insensitively, and anything unknown falls back to lowercase.
   */
  function JavaNaming(strategy: Option<string>): Naming
  {
    var s := if strategy.None? || strategy.value == [] then "lowercase" else strategy.value;
    NamingOfKey(Lower(s))
  }

  /** The switch on the lower-cased strategy name. */
  function NamingOfKey(key: string): Naming
  {
    if key == "lowercase" then Lowercase
    else if key == "uppercase" then Uppercase
    else if key == "original" then Original
    else if key == "camelcase" then Camel
    else if key == "snake_case" then Snake
    else if key == "pascalcase" then Pascal
    else Lowercase
  }

  /** The default strategy's name is already lower-case. */
  lemma DefaultKey()
    ensures Lower("lowercase") == "lowercase"
  {
    LowerOfNoUpper("lowercase");
  }

  /** transform: null and empty names are returned unchanged. */
  function Transform(columnName: Option<string>, strategy: Option<string>): (r: Option<string>)
    ensures r.None? <==> columnName.None?
    ensures columnName.Some? &&
            (JavaNaming(strategy).Lowercase? || JavaNaming(strategy).Uppercase? || JavaNaming(strategy).Original?) ==>
              |r.value| == |columnName.value|
  {
    if columnName.None? || columnName.value == [] then columnName
    else Some(Apply(JavaNaming(strategy), columnName.value))
  }

  /** The strategy's transformation of a non-empty name; the three case strategies keep its length. */
  function Apply(naming: Naming, name: string): (r: string)
    ensures naming.Lowercase? || naming.Uppercase? || naming.Original? ==> |r| == |name|
  {
    match naming
      case Lowercase => Lower(name)
      case Uppercase => Upper(name)
      case Original => name
      case Camel => CamelCased(name)
      case Snake => SnakeCasedAsWritten(name)
      case Pascal => PascalCased(name)
  }

  // ---------------------------------------------------------------- normalizeToWords

  /** Character.isUpperCase(c) && Character.isLowerCase(prev), on ASCII letters. */
  predicate WordBoundary(prev: char, c: char) { IsUpperChar(c) && IsLowerChar(prev) }

  /** The upper-cased text with '_' before each character that starts a new word. */
  function SplitAtBoundaries(s: string): (r: string)
  {
    if s == [] then []
    else
      var init := s[..|s| - 1];
      SplitAtBoundaries(init) +
      (if |s| > 1 && WordBoundary(s[|s| - 2], s[|s| - 1]) then "_" else "") +
      [UpperChar(s[|s| - 1])]
  }

  /** normalizeToWords. */
  function NormalizedWords(columnName: string): string
  {
    if columnName == [] then []
    else if '_' in columnName then CollapseRuns(Upper(columnName), JavaSpaces)
    else SplitAtBoundaries(columnName)
  }

  /** The loop of normalizeToWords, building the text one character at a time. */
  method NormalizeToWords(columnName: string) returns (r: string)
    ensures r == NormalizedWords(columnName)
  {
    if columnName == [] {
      return [];
    }
    if '_' in columnName {
      return CollapseRuns(Upper(columnName), JavaSpaces);
    }
    r := [];
    var i := 0;
    while i < |columnName|
      invariant 0 <= i <= |columnName|
      invariant r == SplitAtBoundaries(columnName[..i])
    {
      var c := columnName[i];
      ghost var pre := columnName[..i + 1];
      assert pre[..i] == columnName[..i];
      if i > 0 && WordBoundary(columnName[i - 1], c) {
        r := r + "_";
      }
      r := r + [UpperChar(c)];
      i := i + 1;
    }
    assert columnName[..i] == columnName;
  }

  /** Without a '_' in the input, dropping the inserted '_'s gives the upper-cased input back. */
  lemma {:induction false} BoundariesOnlyAddUnderscores(s: string)
    requires '_' !in s
    ensures Without(SplitAtBoundaries(s), '_') == Upper(s)
  {
    if s != [] {
      var init, last := s[..|s| - 1], s[|s| - 1];
      assert s == init + [last];
      assert '_' !in init && last != '_';
      BoundariesOnlyAddUnderscores(init);
      var mid := if |s| > 1 && WordBoundary(s[|s| - 2], last) then "_" else "";
      var p, ch := SplitAtBoundaries(init), UpperChar(last);
      var pm := p + mid;
      assert SplitAtBoundaries(s) == pm + [ch];
      WithoutSnoc(pm, ch, '_');
      assert Without(pm, '_') == Without(p, '_') by {
        if mid == [] {
          assert pm == p;
        } else {
          assert pm == p + ['_'];
          WithoutSnoc(p, '_', '_');
        }
      }
      UpperAppend(init, [last]);
      assert Upper([last]) == [ch];
    }
  }

  lemma WithoutSnoc(x: string, c: char, k: char)
    ensures Without(x + [c], k) == Without(x, k) + (if c == k then [] else [c])
  {
    assert (x + [c])[..|x|] == x;
  }

  /** Some lower-case letter of s is followed by an upper-case one. */
  predicate HasBoundary(s: string)
  {
    exists i :: 0 < i < |s| && WordBoundary(s[i - 1], s[i])
  }

  lemma BoundarySnoc(s: string)
    requires s != []
    ensures HasBoundary(s) <==>
      HasBoundary(s[..|s| - 1]) || (|s| > 1 && WordBoundary(s[|s| - 2], s[|s| - 1]))
  {
    var init := s[..|s| - 1];
    if HasBoundary(init) {
      var i :| 0 < i < |init| && WordBoundary(init[i - 1], init[i]);
      assert s[i - 1] == init[i - 1] && s[i] == init[i];
    }
    if HasBoundary(s) {
      var i :| 0 < i < |s| && WordBoundary(s[i - 1], s[i]);
      if i < |s| - 1 {
        assert init[i - 1] == s[i - 1] && init[i] == s[i];
      }
    }
  }

  /** A '_' appears exactly where a lower-case letter is followed by an upper-case one. */
  lemma {:induction false} UnderscoreIffBoundary(s: string)
    requires '_' !in s
    ensures '_' in SplitAtBoundaries(s) <==> HasBoundary(s)
  {
    if s != [] {
      var init, last := s[..|s| - 1], s[|s| - 1];
      assert '_' !in init;
      UnderscoreIffBoundary(init);
      BoundarySnoc(s);
      var mid := if |s| > 1 && WordBoundary(s[|s| - 2], last) then "_" else "";
      var p, ch := SplitAtBoundaries(init), UpperChar(last);
      assert SplitAtBoundaries(s) == (p + mid) + [ch];
      assert ch != '_';
    }
  }

  /** The characters of s other than c. */
  function Without(s: string, c: char): (r: string)
  {
    if s == [] then [] else Without(s[..|s| - 1], c) + (if s[|s| - 1] == c then [] else [s[|s| - 1]])
  }

  /** Lower-casing commutes with dropping a character that is not a letter. */
  lemma {:induction false} WithoutLower(s: string, c: char)
    requires !IsUpperChar(c) && !IsLowerChar(c)
    ensures Without(Lower(s), c) == Lower(Without(s, c))
  {
    if s != [] {
      var init, last := s[..|s| - 1], s[|s| - 1];
      assert s == init + [last];
      LowerAppend(init, [last]);
      var li, ll := Lower(init), LowerChar(last);
      assert Lower([last]) == [ll];
      WithoutSnoc(li, ll, c);
      WithoutLower(init, c);
      var w := Without(init, c);
      if last == c {
        assert Without(s, c) == w;
      } else {
        assert Without(s, c) == w + [last];
        LowerAppend(w, [last]);
        assert Lower([last]) == [ll];
      }
    }
  }

  /** A character that is not a letter is in the lower-cased text exactly when it is in the text. */
  lemma LowerKeepsChar(s: string, c: char)
    requires !IsUpperChar(c) && !IsLowerChar(c)
    ensures c in Lower(s) <==> c in s
  {
    var l := Lower(s);
    if c in s {
      var i :| 0 <= i < |s| && s[i] == c;
      assert l[i] == c;
    }
    if c in l {
      var i :| 0 <= i < |l| && l[i] == c;
      assert s[i] == c;
    }
  }

  lemma {:induction false} WithoutAppend(a: string, b: string, c: char)
    ensures Without(a + b, c) == Without(a, c) + Without(b, c)
    decreases |b|
  {
    if b != [] {
      var init := b[..|b| - 1];
      assert (a + b)[..|a + b| - 1] == a + init;
      WithoutAppend(a, init, c);
    } else {
      assert a + b == a;
    }
  }

  lemma {:induction false} SplitAtBoundariesShape(s: string)
    ensures |SplitAtBoundaries(s)| >= |s|
    ensures forall i :: 0 <= i < |SplitAtBoundaries(s)| ==>
      SplitAtBoundaries(s)[i] == '_' || exists j :: 0 <= j < |s| && SplitAtBoundaries(s)[i] == UpperChar(s[j])
  {
    if s != [] {
      var init := s[..|s| - 1];
      SplitAtBoundariesShape(init);
      var r := SplitAtBoundaries(s);
      var ri := SplitAtBoundaries(init);
      var mid := if |s| > 1 && WordBoundary(s[|s| - 2], s[|s| - 1]) then "_" else "";
      assert r == ri + mid + [UpperChar(s[|s| - 1])];
      forall i | 0 <= i < |r|
        ensures r[i] == '_' || exists j :: 0 <= j < |s| && r[i] == UpperChar(s[j])
      {
        if i < |ri| {
          assert r[i] == ri[i];
          if ri[i] != '_' {
            var j :| 0 <= j < |init| && ri[i] == UpperChar(init[j]);
            assert r[i] == UpperChar(s[j]);
          }
        } else if i == |r| - 1 {
          assert r[i] == UpperChar(s[|s| - 1]);
        }
      }
    }
  }

  // ---------------------------------------------------------------- camelCase

  /** toCamelCase. */
  function CamelCased(columnName: string): string
  {
    var normalized := NormalizedWords(columnName);
    if normalized == [] then Lower(columnName)
    else
      var words := JavaSplit(normalized, '_');
      if |words| == 0 then Lower(columnName)
      else Lower(words[0]) + CapWords(words[1..])
  }

  /** toCamelCase: normalise, split on '_', join the words. */
  method ToCamelCase(columnName: string) returns (r: string)
    ensures r == CamelCased(columnName)
  {
    var normalized := NormalizeToWords(columnName);
    if normalized == [] {
      return Lower(columnName);
    }
    var words := JavaSplit(normalized, '_');
    if |words| == 0 {
      return Lower(columnName);
    }
    r := JoinCamel(words);
  }

  /** The loop of toCamelCase: the first word lower-cased, then every later word capitalised. */
  method JoinCamel(words: seq<string>) returns (r: string)
    requires |words| > 0
    ensures r == Lower(words[0]) + CapWords(words[1..])
  {
    var head := Lower(words[0]);
    r := head;
    ghost var tail: string := [];
    var i := 1;
    while i < |words|
      invariant 1 <= i <= |words|
      invariant tail == CapWords(words[1..i])
      invariant r == head + tail
    {
      SliceSnoc(words, 1, i + 1);
      CapWordsSnoc(words[1..i], words[i]);
      if words[i] != [] {
        var word := Lower(words[i]);
        var piece := [UpperChar(word[0])] + (if |word| > 1 then word[1..] else []);
        CapWordOfLower(words[i]);
        r := r + piece;
      }
      AppendAssoc(head, tail, CapWord(words[i]));
      tail := tail + CapWord(words[i]);
      i := i + 1;
    }
    assert words[1..i] == words[1..];
  }

  // ---------------------------------------------------------------- snake_case

  /** Each character lower-cased, with '_' before every upper-case letter after the first position. */
  function SnakeBody(s: string): string
  {
    if s == [] then []
    else
      var c := s[|s| - 1];
      SnakeBody(s[..|s| - 1]) + (if IsUpperChar(c) && |s| > 1 then "_" else "") + [LowerChar(c)]
  }

  /**
   * toSnakeCase as written: its loop puts '_' before every upper-case
   * character, but the normalised text it runs over is already upper-cased.
   */
  function SnakeCasedAsWritten(columnName: string): string
  {
    var normalized := NormalizedWords(columnName);
    if normalized == [] then Lower(columnName)
    else if '_' in normalized then Lower(normalized)
    else SnakeBody(normalized)
  }

  /** The loop of toSnakeCase. */
  method ToSnakeCase(columnName: string) returns (r: string)
    ensures r == SnakeCasedAsWritten(columnName)
  {
    var normalized := NormalizeToWords(columnName);
    if normalized == [] {
      return Lower(columnName);
    }
    if '_' in normalized {
      return Lower(normalized);
    }
    r := [];
    var i := 0;
    while i < |normalized|
      invariant 0 <= i <= |normalized|
      invariant r == SnakeBody(normalized[..i])
    {
      var c := normalized[i];
      assert normalized[..i + 1][..i] == normalized[..i];
      if IsUpperChar(c) && i > 0 {
        r := r + "_";
      }
      r := r + [LowerChar(c)];
      i := i + 1;
    }
    assert normalized[..i] == normalized;
  }

  /**
   * toSnakeCase as evidently intended: the normalised words, which already
   * carry '_' at every word boundary, lower-cased.
   */
  function SnakeCased(columnName: string): string
  {
    var normalized := NormalizedWords(columnName);
    if normalized == [] then Lower(columnName) else Lower(normalized)
  }

  /** As written, a single upper-case word is split into letters. */
  lemma SnakeAsWrittenSplitsLetters()
    ensures SnakeCasedAsWritten("ID") == "i_d"
    ensures SnakeCased("ID") == "id"
  {
    var n := SplitAtBoundaries("ID");
    assert "ID"[..1] == "I" && "I"[..0] == [];
    assert SplitAtBoundaries("I") == "I";
    assert n == "ID";
    assert "ID"[..1] == "I";
    assert SnakeBody("I") == "i";
    assert SnakeBody("ID") == "i" + "_" + "d";
    assert Lower("ID") == "id";
  }

  /**
   * Without '_' in the name, the corrected snake_case keeps the name's letters
   * lower-cased, and has a '_' exactly at each lower-to-upper boundary.
   */
  lemma SnakeCasedWords(name: string)
    requires name != [] && '_' !in name
    ensures Without(SnakeCased(name), '_') == Lower(name)
    ensures '_' in SnakeCased(name) <==> HasBoundary(name)
  {
    var n := SplitAtBoundaries(name);
    assert NormalizedWords(name) == n;
    assert n != [] by { SplitAtBoundariesShape(name); }
    WithoutLower(n, '_');
    BoundariesOnlyAddUnderscores(name);
    LowerOfUpper(name);
    UnderscoreIffBoundary(name);
    LowerKeepsChar(n, '_');
  }

  // ---------------------------------------------------------------- PascalCase

  /** capitalizeFirst. */
  function CapitalizeFirst(s: string): (r: string)
    ensures |r| == |s|
    ensures s != [] ==> r[0] == UpperChar(s[0]) && r[1..] == Lower(s[1..])
  {
    if s == [] then s else [UpperChar(s[0])] + Lower(s[1..])
  }

  /** toPascalCase: the non-empty words capitalised and joined without a separator. */
  function PascalCased(columnName: string): string
  {
    var normalized := NormalizedWords(columnName);
    if normalized == [] then CapitalizeFirst(columnName)
    else CapWords(JavaSplit(normalized, '_'))
  }

  // ---------------------------------------------------------------- properties

  /** A null or empty name comes back unchanged, whatever the strategy. */
  lemma EmptyNameUnchanged(columnName: Option<string>, strategy: Option<string>)
    requires columnName.None? || columnName.value == []
    ensures Transform(columnName, strategy) == columnName
  {
  }

  /** The strategy is matched ignoring case. */
  lemma StrategyIgnoresCase(s1: string, s2: string)
    requires Lower(s1) == Lower(s2)
    ensures JavaNaming(Some(s1)) == JavaNaming(Some(s2))
  {
    assert |s1| == |Lower(s1)| && |s2| == |Lower(s2)|;
  }

  /** A null or empty strategy means lowercase. */
  lemma StrategyDefault(name: string)
    requires name != []
    ensures Transform(Some(name), None) == Some(Lower(name))
    ensures Transform(Some(name), Some([])) == Some(Lower(name))
  {
    DefaultKey();
  }

  /** An unknown strategy falls back to lowercase. */
  lemma StrategyUnknown(s: string)
    requires var k := Lower(s);
      k != "lowercase" && k != "uppercase" && k != "original" && k != "camelcase" &&
      k != "snake_case" && k != "pascalcase"
    ensures JavaNaming(Some(s)) == Lowercase
  {
  }

  /** "original", in any case, keeps the name; nothing else does. */
  lemma StrategyOriginal(s: string)
    ensures JavaNaming(Some(s)) == Original <==> Lower(s) == "original"
  {
    if s == [] {
      DefaultKey();
    } else {
      assert |Lower(s)| == |s|;
    }
  }

  /** Two upper-case words joined by '_' split back into those two words. */
  lemma TwoWordsNormalized(a: string, b: string)
    requires a != [] && b != [] && IsUpperWord(a) && IsUpperWord(b)
    ensures NormalizedWords(a + "_" + b) == a + "_" + b
    ensures JavaSplit(a + "_" + b, '_') == [a, b]
  {
    var s := a + "_" + b;
    assert s[|a|] == '_';
    forall i | 0 <= i < |s|
      ensures !IsLowerChar(s[i]) && !IsRegexSpace(s[i])
    {
      if i < |a| { assert s[i] == a[i]; } else if i > |a| { assert s[i] == b[i - |a| - 1]; }
    }
    assert Upper(s) == s;
    assert '_' !in a && '_' !in b by {
      assert forall i :: 0 <= i < |a| ==> a[i] != '_';
      assert forall i :: 0 <= i < |b| ==> b[i] != '_';
    }
    JavaSplitPair(a, b, '_');
  }

  predicate IsUpperWord(s: string) { forall i :: 0 <= i < |s| ==> IsUpperChar(s[i]) }

  /** A two-word upper-case name in camelCase: the first word lower-cased, the second capitalised. */
  lemma TwoWordCamel(a: string, b: string)
    requires a != [] && b != [] && IsUpperWord(a) && IsUpperWord(b)
    ensures CamelCased(a + "_" + b) == Lower(a) + CapWord(b)
  {
    var s := a + "_" + b;
    TwoWordsNormalized(a, b);
    CapWordsSingle(b);
    var ws := [a, b];
    assert ws[1..] == [b];
    assert CamelCased(s) == Lower(ws[0]) + CapWords(ws[1..]);
  }

  /** A two-word upper-case name in PascalCase: both words capitalised. */
  lemma TwoWordPascal(a: string, b: string)
    requires a != [] && b != [] && IsUpperWord(a) && IsUpperWord(b)
    ensures PascalCased(a + "_" + b) == CapWord(a) + CapWord(b)
  {
    TwoWordsNormalized(a, b);
    CapWordsPair(a, b);
  }

  /**
   * A two-word upper-case name in snake_case: both words lower-cased around
   * the '_', as written and as intended.
   */
  lemma TwoWordSnake(a: string, b: string)
    requires a != [] && b != [] && IsUpperWord(a) && IsUpperWord(b)
    ensures SnakeCasedAsWritten(a + "_" + b) == Lower(a) + "_" + Lower(b)
    ensures SnakeCased(a + "_" + b) == Lower(a) + "_" + Lower(b)
  {
    TwoWordsNormalized(a, b);
    assert (a + "_" + b)[|a|] == '_';
    LowerAppend(a + "_", b);
    LowerAppend(a, "_");
    assert Lower("_") == "_";
  }

  /** The words of "USER_ID", cased and joined. */
  lemma UserIdWords()
    ensures "USER_ID" == "USER" + "_" + "ID"
    ensures IsUpperWord("USER") && IsUpperWord("ID")
    ensures Lower("USER") + CapWord("ID") == "userId"
    ensures CapWord("USER") + CapWord("ID") == "UserId"
    ensures Lower("USER") + "_" + Lower("ID") == "user_id"
  {
    assert Lower("USER") == "user" && Lower("ID") == "id";
    assert CapWord("USER") == "User" && CapWord("ID") == "Id";
  }

  /** The words of "FIRST_NAME". */
  lemma FirstNameWords()
    ensures "FIRST_NAME" == "FIRST" + "_" + "NAME"
    ensures IsUpperWord("FIRST") && IsUpperWord("NAME")
  {
  }

  /** The words of "FIRST_NAME", cased and joined. */
  lemma FirstNameCased()
    ensures Lower("FIRST") + CapWord("NAME") == "firstName"
  {
    var f, n := Lower("FIRST"), CapWord("NAME");
    assert f == "first";
    assert n == "Name";
  }

  /** The examples the source documents for "USER_ID". */
  lemma UserIdExamples(name: string)
    requires name == "USER_ID"
    ensures CamelCased(name) == "userId"
    ensures PascalCased(name) == "UserId"
    ensures SnakeCasedAsWritten(name) == "user_id"
  {
    UserIdWords();
    TwoWordCamel("USER", "ID");
    TwoWordPascal("USER", "ID");
    TwoWordSnake("USER", "ID");
  }

  /** The example the source documents for "FIRST_NAME". */
  lemma FirstNameExample(name: string)
    requires name == "FIRST_NAME"
    ensures CamelCased(name) == "firstName"
  {
    FirstNameWords();
    FirstNameCased();
    TwoWordCamel("FIRST", "NAME");
  }

  /**
   * camelCase and PascalCase agree except for the first letter when the
   * first word is not empty.
   */
  lemma CamelPascalAgree(columnName: string)
    requires var n := NormalizedWords(columnName);
      n != [] && JavaSplit(n, '_') != [] && JavaSplit(n, '_')[0] != []
    ensures var c, p := CamelCased(columnName), PascalCased(columnName);
      |c| == |p| && c != [] && p[0] == UpperChar(c[0]) && p[1..] == c[1..]
  {
    var words := JavaSplit(NormalizedWords(columnName), '_');
    var w, rest := words[0], words[1..];
    assert words == [w] + rest;
    var l0, u0, t, tail := LowerChar(w[0]), UpperChar(LowerChar(w[0])), Lower(w[1..]), CapWords(rest);
    assert Lower(w) == [l0] + t;
    assert CapWord(w) == [u0] + t;
    assert CapWords([w]) == CapWord(w) by {
      var none: seq<string> := [];
      assert [w][..0] == none;
      assert CapWords([w]) == CapWords(none) + CapWord(w);
    }
    CapWordsAppend([w], rest);
    assert CamelCased(columnName) == ([l0] + t) + tail;
    assert PascalCased(columnName) == ([u0] + t) + tail;
    AppendAssoc([l0], t, tail);
    AppendAssoc([u0], t, tail);
  }
}
