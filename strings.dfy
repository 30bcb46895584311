// Java and JavaScript string primitives the services rely on, written out
// with the library's own semantics (null is modelled by Option where the
// callers test for it).

module JavaStr {

  datatype Option<T> = None | Some(value: T)

  /** v != null ? v : default. */
  function OrElse<T>(v: Option<T>, default: T): T
  {
    if v.Some? then v.value else default
  }

  // ---------------------------------------------------------------- case

  predicate IsUpperChar(c: char) { 'A' <= c <= 'Z' }
  predicate IsLowerChar(c: char) { 'a' <= c <= 'z' }
  predicate IsDigitChar(c: char) { '0' <= c <= '9' }
  predicate IsLetterChar(c: char) { IsUpperChar(c) || IsLowerChar(c) }

  function UpperChar(c: char): (r: char)
    ensures IsLowerChar(c) ==> IsUpperChar(r)
    ensures !IsLowerChar(c) ==> r == c
  {
    if IsLowerChar(c) then (c as int - 32) as char else c
  }

  function LowerChar(c: char): (r: char)
    ensures IsUpperChar(c) ==> IsLowerChar(r)
    ensures !IsUpperChar(c) ==> r == c
  {
    if IsUpperChar(c) then (c as int + 32) as char else c
  }

  /** String.toUpperCase / toUpperCase() restricted to ASCII letters. */
  function Upper(s: string): (r: string)
    ensures |r| == |s|
    ensures forall i :: 0 <= i < |s| ==> r[i] == UpperChar(s[i])
  {
    if s == [] then [] else [UpperChar(s[0])] + Upper(s[1..])
  }

  /** String.toLowerCase / toLowerCase() restricted to ASCII letters. */
  function Lower(s: string): (r: string)
    ensures |r| == |s|
    ensures forall i :: 0 <= i < |s| ==> r[i] == LowerChar(s[i])
  {
    if s == [] then [] else [LowerChar(s[0])] + Lower(s[1..])
  }

  predicate EqualsIgnoreCase(a: string, b: string) { Upper(a) == Upper(b) }

  lemma {:induction false} UpperAppend(a: string, b: string)
    ensures Upper(a + b) == Upper(a) + Upper(b)
  {
    if a == [] {
      assert a + b == b;
    } else {
      assert (a + b)[1..] == a[1..] + b;
      UpperAppend(a[1..], b);
    }
  }

  lemma {:induction false} LowerAppend(a: string, b: string)
    ensures Lower(a + b) == Lower(a) + Lower(b)
  {
    if a == [] {
      assert a + b == b;
    } else {
      assert (a + b)[1..] == a[1..] + b;
      LowerAppend(a[1..], b);
    }
  }

  lemma UpperIdempotent(s: string)
    ensures Upper(Upper(s)) == Upper(s)
  {
  }

  lemma LowerIdempotent(s: string)
    ensures Lower(Lower(s)) == Lower(s)
  {
  }

  lemma LowerOfUpper(s: string)
    ensures Lower(Upper(s)) == Lower(s)
  {
  }

  /** A text with no upper-case letter is its own lower-case form. */
  lemma LowerOfNoUpper(s: string)
    requires forall i :: 0 <= i < |s| ==> !IsUpperChar(s[i])
    ensures Lower(s) == s
  {
  }

  lemma UpperOfLower(s: string)
    ensures Upper(Lower(s)) == Upper(s)
  {
  }

  // ---------------------------------------------------------------- trim

  /** Characters String.trim() removes: everything up to U+0020. */
  predicate IsTrimChar(c: char) { c <= ' ' }

  /** The characters of the regex class \s: [ \t\n\x0B\f\r]. */
  predicate IsRegexSpace(c: char)
  {
    c == ' ' || c == '\t' || c == '\n' || c == '\U{000B}' || c == '\U{000C}' || c == '\r'
  }

  function TrimStart(s: string): (r: string)
    ensures |r| <= |s| && r == s[|s| - |r|..]
    ensures r != [] ==> !IsTrimChar(r[0])
    ensures forall i :: 0 <= i < |s| - |r| ==> IsTrimChar(s[i])
  {
    if s != [] && IsTrimChar(s[0]) then TrimStart(s[1..]) else s
  }

  function TrimEnd(s: string): (r: string)
    ensures |r| <= |s| && r == s[..|r|]
    ensures r != [] ==> !IsTrimChar(r[|r| - 1])
    ensures forall i :: |r| <= i < |s| ==> IsTrimChar(s[i])
  {
    if s != [] && IsTrimChar(s[|s| - 1]) then TrimEnd(s[..|s| - 1]) else s
  }

  /** String.trim(). */
  function Trim(s: string): (r: string)
    ensures |r| <= |s|
    ensures r != [] ==> !IsTrimChar(r[0]) && !IsTrimChar(r[|r| - 1])
  {
    TrimEnd(TrimStart(s))
  }

  /**
   * trim().isEmpty(): nothing but characters up to U+0020. This is not
   * String.isBlank(), which tests Character.isWhitespace instead.
   */
  predicate IsBlank(s: string) { forall i :: 0 <= i < |s| ==> IsTrimChar(s[i]) }

  lemma TrimEmptyIffBlank(s: string)
    ensures Trim(s) == [] <==> IsBlank(s)
  {
  }

  lemma TrimIdempotent(s: string)
    ensures Trim(Trim(s)) == Trim(s)
  {
    TrimOfTrimmed(Trim(s));
  }

  /** A string with no trim character at either end is its own trim. */
  lemma TrimOfTrimmed(s: string)
    requires s != [] ==> !IsTrimChar(s[0]) && !IsTrimChar(s[|s| - 1])
    ensures Trim(s) == s
  {
  }

  /** Blank text around s does not change its trim. */
  lemma TrimOfPadded(a: string, s: string, b: string)
    requires IsBlank(a) && IsBlank(b)
    ensures Trim(a + s + b) == Trim(s)
  {
    AppendAssoc(a, s, b);
    TrimStartBlankPrefix(a, s + b);
    if IsBlank(s) {
      assert IsBlank(s + b);
      TrimEmptyIffBlank(s + b);
      TrimEmptyIffBlank(s);
    } else {
      TrimStartKeepsSuffix(s, b);
      TrimEndBlankSuffix(TrimStart(s), b);
    }
  }

  lemma {:induction false} TrimStartBlankPrefix(a: string, s: string)
    requires IsBlank(a)
    ensures TrimStart(a + s) == TrimStart(s)
  {
    if a != [] {
      assert (a + s)[1..] == a[1..] + s;
      TrimStartBlankPrefix(a[1..], s);
    } else {
      assert a + s == s;
    }
  }

  lemma {:induction false} TrimStartKeepsSuffix(s: string, b: string)
    requires !IsBlank(s)
    ensures TrimStart(s + b) == TrimStart(s) + b
  {
    if IsTrimChar(s[0]) {
      assert (s + b)[1..] == s[1..] + b;
      TrimStartKeepsSuffix(s[1..], b);
    }
  }

  lemma {:induction false} TrimEndBlankSuffix(s: string, b: string)
    requires IsBlank(b)
    ensures TrimEnd(s + b) == TrimEnd(s)
    decreases |b|
  {
    if b != [] {
      assert (s + b)[..|s + b| - 1] == s + b[..|b| - 1];
      TrimEndBlankSuffix(s, b[..|b| - 1]);
    } else {
      assert s + b == s;
    }
  }

  // ---------------------------------------------------------------- search

  predicate StartsWith(s: string, p: string) { |p| <= |s| && s[..|p|] == p }

  predicate EndsWith(s: string, p: string) { |p| <= |s| && s[|s| - |p|..] == p }

  predicate OccursAt(s: string, t: string, i: int)
  {
    0 <= i && i + |t| <= |s| && s[i..i + |t|] == t
  }

  /** String.contains / String.includes. */
  predicate Contains(s: string, t: string)
  {
    exists i :: 0 <= i <= |s| - |t| && OccursAt(s, t, i)
  }

  predicate ContainsChar(s: string, c: char) { c in s }

  lemma ContainsCharIff(s: string, c: char)
    ensures Contains(s, [c]) <==> c in s
  {
    if c in s {
      var i :| 0 <= i < |s| && s[i] == c;
      assert OccursAt(s, [c], i);
    }
    if Contains(s, [c]) {
      var i :| 0 <= i <= |s| - 1 && OccursAt(s, [c], i);
      assert s[i] == s[i..i + 1][0];
    }
  }

  lemma ContainsEmpty(s: string)
    ensures Contains(s, [])
  {
    assert OccursAt(s, [], 0);
  }

  lemma StartsWithContains(s: string, t: string)
    requires StartsWith(s, t)
    ensures Contains(s, t)
  {
    assert OccursAt(s, t, 0);
  }

  lemma ContainsInPart(a: string, t: string, b: string)
    requires Contains(a, t) || Contains(b, t)
    ensures Contains(a + b, t)
  {
    if Contains(a, t) {
      var i :| 0 <= i <= |a| - |t| && OccursAt(a, t, i);
      assert (a + b)[i..i + |t|] == a[i..i + |t|];
      assert OccursAt(a + b, t, i);
    } else {
      var i :| 0 <= i <= |b| - |t| && OccursAt(b, t, i);
      assert (a + b)[|a| + i..|a| + i + |t|] == b[i..i + |t|];
      assert OccursAt(a + b, t, |a| + i);
    }
  }

  /** String.indexOf(char): the first position of c, if any. */
  function IndexOfChar(s: string, c: char): (r: Option<nat>)
    ensures r.None? <==> c !in s
    ensures r.Some? ==> r.value < |s| && s[r.value] == c && c !in s[..r.value]
  {
    if s == [] then None
    else if s[0] == c then Some(0)
    else match IndexOfChar(s[1..], c)
      case None => None
      case Some(k) => Some(k + 1)
  }

  // ---------------------------------------------------------------- replace

  /**
   * String.replace(CharSequence, CharSequence): every occurrence, scanning
   * left to right without overlap; an empty target puts the replacement
   * before every character and at the end.
   */
  function Replace(s: string, target: string, repl: string): (r: string)
    decreases |s|
  {
    if target == [] then
      if s == [] then repl else repl + [s[0]] + Replace(s[1..], target, repl)
    else if s == [] then []
    else if StartsWith(s, target) then repl + Replace(s[|target|..], target, repl)
    else [s[0]] + Replace(s[1..], target, repl)
  }

  /** With no occurrence of a non-empty target, Replace changes nothing. */
  lemma {:induction false} ReplaceAbsent(s: string, target: string, repl: string)
    requires target != [] && !Contains(s, target)
    ensures Replace(s, target, repl) == s
    decreases |s|
  {
    if s != [] {
      if StartsWith(s, target) {
        assert OccursAt(s, target, 0);
      }
      if Contains(s[1..], target) {
        var i :| 0 <= i <= |s[1..]| - |target| && OccursAt(s[1..], target, i);
        assert s[1 + i..1 + i + |target|] == s[1..][i..i + |target|];
        assert OccursAt(s, target, 1 + i);
      }
      ReplaceAbsent(s[1..], target, repl);
    }
  }

  /** After replacing every c by an empty string no c is left. */
  lemma {:induction false} ReplaceCharRemoves(s: string, c: char)
    ensures c !in Replace(s, [c], [])
    ensures |Replace(s, [c], [])| <= |s|
    decreases |s|
  {
    if s != [] {
      ReplaceCharRemoves(s[1..], c);
    }
  }

  /** Replacing a single character by a string without that character leaves none of it. */
  lemma {:induction false} ReplaceCharBy(s: string, c: char, repl: string)
    requires c !in repl
    ensures c !in Replace(s, [c], repl)
    decreases |s|
  {
    if s != [] {
      ReplaceCharBy(s[1..], c, repl);
    }
  }

  /** Replacing a single character distributes over concatenation. */
  lemma {:induction false} ReplaceCharAppend(a: string, b: string, c: char, repl: string)
    ensures Replace(a + b, [c], repl) == Replace(a, [c], repl) + Replace(b, [c], repl)
    decreases |a|
  {
    if a == [] {
      assert a + b == b;
    } else {
      assert (a + b)[1..] == a[1..] + b;
      assert StartsWith(a + b, [c]) <==> StartsWith(a, [c]);
      ReplaceCharAppend(a[1..], b, c, repl);
    }
  }

  /**
   * How SQL reads the body of a literal or identifier quoted with q: each
   * doubled q stands for one q.
   */
  function Undouble(body: string, q: char): string
    decreases |body|
  {
    if body == [] then []
    else if StartsWith(body, [q, q]) then [q] + Undouble(body[2..], q)
    else [body[0]] + Undouble(body[1..], q)
  }

  /** Doubling every q is undone by Undouble. */
  lemma {:induction false} UndoubleOfDouble(s: string, q: char)
    ensures Undouble(Replace(s, [q], [q, q]), q) == s
    decreases |s|
  {
    if s != [] {
      var rest := Replace(s[1..], [q], [q, q]);
      UndoubleOfDouble(s[1..], q);
      if s[0] == q {
        assert StartsWith(s, [q]);
        assert Replace(s, [q], [q, q]) == [q, q] + rest;
        assert ([q, q] + rest)[2..] == rest;
      } else {
        assert Replace(s, [q], [q, q]) == [s[0]] + rest;
        assert ([s[0]] + rest)[1..] == rest;
        if rest != [] {
          assert !StartsWith([s[0]] + rest, [q, q]);
        }
      }
    }
  }

  /** A prefix without the target's first character passes through Replace unchanged. */
  lemma {:induction false} ReplaceUntouchedPrefix(a: string, b: string, t: string, repl: string)
    requires t != [] && t[0] !in a
    ensures Replace(a + b, t, repl) == a + Replace(b, t, repl)
    decreases |a|
  {
    if a == [] {
      assert a + b == b;
    } else {
      var s := a + b;
      assert s[0] == a[0] != t[0];
      assert !StartsWith(s, t) by {
        if |t| <= |s| {
          assert s[..|t|][0] == s[0];
        }
      }
      assert Replace(s, t, repl) == [s[0]] + Replace(s[1..], t, repl);
      assert s[1..] == a[1..] + b;
      ReplaceUntouchedPrefix(a[1..], b, t, repl);
      assert [a[0]] + (a[1..] + Replace(b, t, repl)) == a + Replace(b, t, repl);
    }
  }

  /** A string without the target's first character is left alone. */
  lemma ReplaceWithoutFirstChar(s: string, t: string, repl: string)
    requires t != [] && t[0] !in s
    ensures Replace(s, t, repl) == s
  {
    ReplaceUntouchedPrefix(s, [], t, repl);
    assert s + [] == s;
  }

  /** An occurrence at the very start is replaced and scanning resumes after it. */
  lemma ReplaceLeading(t: string, b: string, repl: string)
    requires t != []
    ensures Replace(t + b, t, repl) == repl + Replace(b, t, repl)
  {
    assert StartsWith(t + b, t);
    assert (t + b)[|t|..] == b;
  }

  lemma ReplaceCharNoOp(s: string, c: char, repl: string)
    requires c !in s
    ensures Replace(s, [c], repl) == s
  {
    ContainsCharIff(s, c);
    ReplaceAbsent(s, [c], repl);
  }

  // ---------------------------------------------------------------- join, split

  /** The first n characters of a + b are those of a when a is that long. */
  lemma PrefixOfAppend(a: string, b: string, n: nat)
    requires n <= |a|
    ensures (a + b)[..n] == a[..n]
  {
  }

  lemma SuffixOfAppend(a: string, b: string)
    ensures EndsWith(a + b, b)
  {
    assert (a + b)[|a + b| - |b|..] == b;
  }

  lemma AppendAssoc(a: string, b: string, c: string)
    ensures (a + b) + c == a + (b + c)
  {
  }

  /** A slice that grows by one element on the right. */
  lemma SliceSnoc<T>(s: seq<T>, i: int, j: int)
    requires 0 <= i < j <= |s|
    ensures s[i..j] == s[i..j - 1] + [s[j - 1]]
  {
  }

  /** String concatenation and %s of a possibly-null String: null prints as "null". */
  function JavaString(s: Option<string>): string
  {
    if s.None? then "null" else s.value
  }

  /** String.join(sep, parts) / Array.prototype.join(sep). */
  function Join(parts: seq<string>, sep: string): (r: string)
    ensures parts == [] ==> r == []
    ensures |parts| == 1 ==> r == parts[0]
  {
    if parts == [] then []
    else if |parts| == 1 then parts[0]
    else parts[0] + sep + Join(parts[1..], sep)
  }

  lemma {:induction false} JoinSnoc(parts: seq<string>, x: string, sep: string)
    ensures Join(parts + [x], sep) == if parts == [] then x else Join(parts, sep) + sep + x
  {
    if |parts| > 1 {
      assert (parts + [x])[1..] == parts[1..] + [x];
      JoinSnoc(parts[1..], x, sep);
    } else if |parts| == 1 {
      assert (parts + [x])[1..] == [x];
    }
  }

  /** Splitting at every c, keeping every piece (JavaScript String.split). */
  function SplitAll(s: string, c: char): (r: seq<string>)
    ensures |r| >= 1
    ensures forall i :: 0 <= i < |r| ==> c !in r[i]
    decreases |s|
  {
    match IndexOfChar(s, c)
      case None => [s]
      case Some(k) => [s[..k]] + SplitAll(s[k + 1..], c)
  }

  lemma {:induction false} SplitAllJoin(s: string, c: char)
    ensures Join(SplitAll(s, c), [c]) == s
    decreases |s|
  {
    match IndexOfChar(s, c)
      case None =>
      case Some(k) =>
        var rest := SplitAll(s[k + 1..], c);
        assert SplitAll(s, c) == [s[..k]] + rest;
        assert ([s[..k]] + rest)[1..] == rest;
        SplitAllJoin(s[k + 1..], c);
        assert Join([s[..k]] + rest, [c]) == s[..k] + [c] + Join(rest, [c]);
        assert s == s[..k] + [c] + s[k + 1..];
  }

  lemma SplitAllNoSep(s: string, c: char)
    requires c !in s
    ensures SplitAll(s, c) == [s]
  {
  }

  /** A piece free of c, then c: splitting takes the piece off the front. */
  lemma SplitAllCons(a: string, rest: string, c: char)
    requires c !in a
    ensures SplitAll(a + [c] + rest, c) == [a] + SplitAll(rest, c)
  {
    var s := a + [c] + rest;
    assert s == a + ([c] + rest);
    IndexOfCharShift(a, [c] + rest, c);
    assert s[..|a|] == a && s[|a| + 1..] == rest;
  }

  /** Joining pieces free of c with c, then splitting at c, gives the pieces back. */
  lemma {:induction false} SplitAllOfJoin(parts: seq<string>, c: char)
    requires parts != [] && forall i :: 0 <= i < |parts| ==> c !in parts[i]
    ensures SplitAll(Join(parts, [c]), c) == parts
    decreases |parts|
  {
    if |parts| == 1 {
      SplitAllNoSep(parts[0], c);
    } else {
      var rest := parts[1..];
      SplitAllOfJoin(rest, c);
      SplitAllCons(parts[0], Join(rest, [c]), c);
      assert [parts[0]] + rest == parts;
    }
  }

  /** A character in neither the pieces nor the separator is not in their join. */
  lemma {:induction false} JoinAvoids(parts: seq<string>, sep: string, c: char)
    requires c !in sep && forall i :: 0 <= i < |parts| ==> c !in parts[i]
    ensures c !in Join(parts, sep)
    decreases |parts|
  {
    if |parts| > 1 {
      JoinAvoids(parts[1..], sep, c);
    }
  }

  function DropTrailingEmpty(ps: seq<string>): (r: seq<string>)
    ensures |r| <= |ps| && r == ps[..|r|]
    ensures r != [] ==> r[|r| - 1] != []
    ensures forall i :: |r| <= i < |ps| ==> ps[i] == []
  {
    if ps != [] && ps[|ps| - 1] == [] then DropTrailingEmpty(ps[..|ps| - 1]) else ps
  }

  /** Searching past a prefix without c: the index moves by the prefix's length. */
  lemma {:induction false} IndexOfCharShift(a: string, rest: string, c: char)
    requires c !in a
    ensures IndexOfChar(a + rest, c) ==
      (match IndexOfChar(rest, c) case None => None case Some(k) => Some(|a| + k))
  {
    if a != [] {
      assert (a + rest)[0] == a[0] && (a + rest)[1..] == a[1..] + rest;
      IndexOfCharShift(a[1..], rest, c);
    } else {
      assert a + rest == rest;
    }
  }

  /** Two pieces joined by the separator split back into those two pieces. */
  lemma JavaSplitPair(a: string, b: string, c: char)
    requires c !in a && c !in b && b != []
    ensures JavaSplit(a + [c] + b, c) == [a, b]
  {
    var s := a + [c] + b;
    assert s == a + ([c] + b);
    IndexOfCharShift(a, [c] + b, c);
    assert IndexOfChar(s, c) == Some(|a|);
    assert s[..|a|] == a && s[|a| + 1..] == b;
    assert SplitAll(s, c) == [a] + SplitAll(b, c);
    assert SplitAll(b, c) == [b];
  }

  /**
   * Java String.split with a one-character literal pattern: the pieces of
   * SplitAll with trailing empty pieces removed, except that a string with no
   * separator at all (the empty string included) is its own single piece.
   */
  function JavaSplit(s: string, c: char): (r: seq<string>)
    ensures c !in s ==> r == [s]
    ensures forall i :: 0 <= i < |r| ==> c !in r[i]
  {
    if c !in s then [s] else DropTrailingEmpty(SplitAll(s, c))
  }

  // ---------------------------------------------------------------- numbers

  function DigitChar(d: nat): (c: char)
    requires d < 10
    ensures IsDigitChar(c)
  {
    ('0' as int + d) as char
  }

  function DigitValue(c: char): (d: nat)
    requires IsDigitChar(c)
    ensures d < 10 && DigitChar(d) == c
  {
    c as int - '0' as int
  }

  /** Decimal digits of n without leading zeros (Integer.toString for n >= 0). */
  function NatToString(n: nat): (r: string)
    ensures |r| >= 1
    ensures forall i :: 0 <= i < |r| ==> IsDigitChar(r[i])
    ensures n > 0 ==> r[0] != '0'
  {
    if n < 10 then [DigitChar(n)] else NatToString(n / 10) + [DigitChar(n % 10)]
  }

  /** String.valueOf(int) / Long.toString. */
  function IntToString(n: int): (r: string)
    ensures |r| >= 1
    ensures n >= 0 ==> r == NatToString(n)
    ensures n < 0 ==> r == "-" + NatToString(-n)
  {
    if n >= 0 then NatToString(n) else "-" + NatToString(-n)
  }

  predicate AllDigits(s: string) { forall i :: 0 <= i < |s| ==> IsDigitChar(s[i]) }

  function DigitsValue(s: string): (n: nat)
    requires AllDigits(s)
  {
    if s == [] then 0 else DigitsValue(s[..|s| - 1]) * 10 + DigitValue(s[|s| - 1])
  }

  lemma {:induction false} DigitsOfNatToString(n: nat)
    ensures AllDigits(NatToString(n)) && DigitsValue(NatToString(n)) == n
  {
    if n >= 10 {
      DigitsOfNatToString(n / 10);
      var s := NatToString(n);
      assert s[..|s| - 1] == NatToString(n / 10);
    }
  }

  lemma NatToStringInjective(a: nat, b: nat)
    requires NatToString(a) == NatToString(b)
    ensures a == b
  {
    DigitsOfNatToString(a);
    DigitsOfNatToString(b);
  }

  /**
   * Texts that each start with the digits of a number followed by the same
   * non-digit c differ when the numbers or the tails after c differ.
   */
  lemma DigitsThenCharDiffer(a: nat, x: string, b: nat, y: string, c: char)
    requires !IsDigitChar(c) && (a != b || x != y)
    ensures NatToString(a) + [c] + x != NatToString(b) + [c] + y
  {
    var na, nb := NatToString(a), NatToString(b);
    DigitsOfNatToString(a);
    DigitsOfNatToString(b);
    assert c !in na && c !in nb;
    var s1, s2 := na + [c] + x, nb + [c] + y;
    assert s1 == na + ([c] + x) && s2 == nb + ([c] + y);
    IndexOfCharShift(na, [c] + x, c);
    IndexOfCharShift(nb, [c] + y, c);
    assert s1[..|na|] == na && s1[|na| + 1..] == x;
    assert s2[..|nb|] == nb && s2[|nb| + 1..] == y;
  }

  /** Between the same prefix and the same last character, different numbers give different texts. */
  lemma DigitsBetweenDiffer(p: string, a: nat, b: nat, c: char)
    requires a != b
    ensures p + NatToString(a) + [c] != p + NatToString(b) + [c]
  {
    DigitsOfNatToString(a);
    DigitsOfNatToString(b);
    var s1, s2 := p + NatToString(a) + [c], p + NatToString(b) + [c];
    assert s1[|p|..|s1| - 1] == NatToString(a);
    assert s2[|p|..|s2| - 1] == NatToString(b);
  }

  const INT_MIN: int := -0x8000_0000
  const INT_MAX: int := 0x7fff_ffff
  const LONG_MIN: int := -0x8000_0000_0000_0000
  const LONG_MAX: int := 0x7fff_ffff_ffff_ffff

  /**
   * The low 64 bits of v read as a signed long: what long arithmetic keeps
   * of an exact result, and what BigDecimal.longValue returns for an integer.
   */
  function LongValue(v: int): (r: int)
    ensures LONG_MIN <= r <= LONG_MAX
    ensures LONG_MIN <= v <= LONG_MAX ==> r == v
  {
    (v - LONG_MIN) % 0x1_0000_0000_0000_0000 + LONG_MIN
  }

  /** The low 32 bits of v read as a signed int: what int arithmetic keeps of an exact result. */
  function IntWrap(v: int): (r: int)
    ensures INT_MIN <= r <= INT_MAX
    ensures INT_MIN <= v <= INT_MAX ==> r == v
  {
    (v - INT_MIN) % 0x1_0000_0000 + INT_MIN
  }

  /**
   * The value of an optional sign followed by one or more ASCII digits, as
   * Integer.parseInt and Long.parseLong read it before their range check.
   */
  function SignedDigits(s: string): (r: Option<int>)
    ensures r.Some? ==> s != []
  {
    if s == [] then None
    else if s[0] == '-' || s[0] == '+' then
      var ds := s[1..];
      if ds != [] && AllDigits(ds) then
        var v: int := DigitsValue(ds);
        Some(if s[0] == '-' then -v else v)
      else None
    else if AllDigits(s) then Some(DigitsValue(s))
    else None
  }

  /** Integer.parseInt over ASCII digits: None stands for NumberFormatException. */
  function ParseInt(s: string): (r: Option<int>)
    ensures r.Some? ==> INT_MIN <= r.value <= INT_MAX
  {
    match SignedDigits(s)
      case Some(v) => if INT_MIN <= v <= INT_MAX then Some(v) else None
      case None => None
  }

  /** Long.parseLong over ASCII digits: None stands for NumberFormatException. */
  function ParseLong(s: string): (r: Option<int>)
    ensures r.Some? ==> LONG_MIN <= r.value <= LONG_MAX
  {
    match SignedDigits(s)
      case Some(v) => if LONG_MIN <= v <= LONG_MAX then Some(v) else None
      case None => None
  }

  lemma {:induction false} SignedDigitsOfIntToString(n: int)
    ensures SignedDigits(IntToString(n)) == Some(n)
  {
    DigitsOfNatToString(if n >= 0 then n else -n);
    if n < 0 {
      assert IntToString(n)[1..] == NatToString(-n);
    }
  }

  /** Integer.parseInt(String.valueOf(n)) == n for every int. */
  lemma ParseIntOfIntToString(n: int)
    requires INT_MIN <= n <= INT_MAX
    ensures ParseInt(IntToString(n)) == Some(n)
  {
    SignedDigitsOfIntToString(n);
  }
}
