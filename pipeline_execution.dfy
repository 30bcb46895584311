// Pg2PgExecutionService: the SQL-script splitter used to run a generated
// migration script statement by statement, the fallback for blank schemas,
// and the ordering, selection and bookkeeping of executePipeline. Database
// calls are replaced by the outcomes they produce.

module Pg2PgExecutionService {
  import opened JavaStr
  import opened PipelineEntities

  // ---------------------------------------------------------------- splitter

  /**
   * Where the splitter is. The source keeps four variables (inDollarQuote
   * with dollarTag, inSingleLineComment, inMultiLineComment); at most one of
   * them is ever set, so they form one mode.
   */
  datatype Mode = Code | LineComment | BlockComment | DollarQuote(tag: Tag)

  /** A dollar-quote tag, `$` + name + `$`. */
  type Tag = t: string | |t| >= 2 witness "$$"


  /** The splitter's variables: index, current statement, mode, statements so far. */
  datatype Scanner = Scanner(i: nat, cur: string, mode: Mode, statements: seq<string>)

  /** The character at j, or '\0' past the end (the lookahead `next`). */
  function CharAt(s: string, j: int): char
  {
    if 0 <= j < |s| then s[j] else '\0'
  }

  /** The first '$' at or after j, or |s| when there is none. */
  function NextDollar(s: string, j: nat): (k: nat)
    requires j <= |s|
    ensures j <= k <= |s|
    ensures k < |s| ==> s[k] == '$'
    ensures forall m :: j <= m < k ==> s[m] != '$'
    decreases |s| - j
  {
    if j == |s| || s[j] == '$' then j else NextDollar(s, j + 1)
  }

  /** The characters `.` does not match in a Java regex. */
  predicate IsLineTerminator(c: char)
  {
    c == '\n' || c == '\r' || c == '\U{0085}' || c == '\U{2028}' || c == '\U{2029}'
  }

  /** What is left of s once the text up to the next line terminator is dropped. */
  function DropToLineEnd(s: string): (r: string)
    ensures |r| <= |s| && r == s[|s| - |r|..]
    ensures r != [] ==> IsLineTerminator(r[0])
  {
    if s == [] || IsLineTerminator(s[0]) then s else DropToLineEnd(s[1..])
  }

  /** No two adjacent '-' in s. */
  predicate NoDoubleDash(s: string)
  {
    forall k :: 0 <= k < |s| - 1 ==> !(s[k] == '-' && s[k + 1] == '-')
  }

  /** replaceAll("--.*", ""): every `--` up to the end of its line is removed. */
  function StripLineComments(s: string): (r: string)
    ensures |r| <= |s|
    ensures NoDoubleDash(s) ==> r == s
    decreases |s|
  {
    if |s| >= 2 && s[0] == '-' && s[1] == '-' then StripLineComments(DropToLineEnd(s[2..]))
    else if s == [] then []
    else [s[0]] + StripLineComments(s[1..])
  }

  /**
   * What a finished piece contributes: its trimmed text, unless that is
   * empty or nothing but `--` comments.
   */
  function Emit(piece: string): (r: seq<string>)
    ensures r == [] || r == [Trim(piece)]
    ensures r != [] ==> Trim(piece) != []
  {
    var t := Trim(piece);
    if t != [] && Trim(StripLineComments(t)) != [] then [t] else []
  }

  /** One turn of the splitter's loop, from a position inside the script. */
  function Step(s: string, st: Scanner): (r: Scanner)
    requires st.i < |s|
    ensures st.i < r.i <= |s| + 1
    ensures r.statements == st.statements || r.statements == st.statements + Emit(st.cur + [s[st.i]])
  {
    var c, next := s[st.i], CharAt(s, st.i + 1);
    if !st.mode.DollarQuote? && !st.mode.BlockComment? && c == '-' && next == '-' then
      st.(i := st.i + 1, cur := st.cur + [c], mode := LineComment)
    else if st.mode.LineComment? then
      st.(i := st.i + 1, cur := st.cur + [c], mode := if c == '\n' || c == '\r' then Code else LineComment)
    else if !st.mode.DollarQuote? && c == '/' && next == '*' then
      st.(i := st.i + 2, cur := st.cur + [c, next], mode := BlockComment)
    else if st.mode.BlockComment? then
      if c == '*' && next == '/' then st.(i := st.i + 2, cur := st.cur + [c, next], mode := Code)
      else st.(i := st.i + 1, cur := st.cur + [c])
    else if c == '$' && !st.mode.DollarQuote? then
      var k := NextDollar(s, st.i + 1);
      if k < |s| then
        var tag := s[st.i..k + 1];
        st.(i := k + 1, cur := st.cur + tag, mode := DollarQuote(tag))
      else
        // no closing '$': only this '$' is kept and the scan ends
        st.(i := |s| + 1, cur := st.cur + [c])
    else if st.mode.DollarQuote? && c == '$' && st.i + |st.mode.tag| <= |s|
            && s[st.i..st.i + |st.mode.tag|] == st.mode.tag then
      st.(i := st.i + |st.mode.tag|, cur := st.cur + st.mode.tag, mode := Code)
    else if !st.mode.DollarQuote? && c == ';' then
      st.(i := st.i + 1, cur := [], statements := st.statements + Emit(st.cur + [c]))
    else
      st.(i := st.i + 1, cur := st.cur + [c])
  }

  /** The splitter's loop run to the end of the script. */
  function Run(s: string, st: Scanner): Scanner
    decreases |s| + 1 - st.i
  {
    if st.i < |s| then Run(s, Step(s, st)) else st
  }

  /** The statements committed so far followed by what the last piece contributes. */
  function Finish(st: Scanner): seq<string>
  {
    st.statements + Emit(st.cur)
  }

  const Start := Scanner(0, [], Code, [])

  /** The statements executeSqlScript runs, in order. */
  function ScriptStatements(script: string): seq<string>
  {
    Finish(Run(script, Start))
  }

  /** The splitting loop of executeSqlScript. */
  method SplitSqlScript(script: string) returns (statements: seq<string>)
    ensures statements == ScriptStatements(script)
  {
    statements := [];
    var current: string := [];
    var mode := Code;
    var i := 0;
    while i < |script|
      invariant i <= |script| + 1
      invariant Finish(Run(script, Scanner(i, current, mode, statements))) == ScriptStatements(script)
      decreases |script| + 1 - i
    {
      ghost var before := Scanner(i, current, mode, statements);
      i, current, mode, statements := Advance(script, i, current, mode, statements);
      RunStep(script, before);
    }
    RunAtEnd(script, Scanner(i, current, mode, statements));
    // the statement left without a closing ';'
    statements := statements + Emit(current);
  }

  lemma RunStep(s: string, st: Scanner)
    requires st.i < |s|
    ensures Run(s, st) == Run(s, Step(s, st))
  {
  }

  lemma RunAtEnd(s: string, st: Scanner)
    requires st.i >= |s|
    ensures Run(s, st) == st
  {
  }

  /** The body of the splitting loop: one character, or one comment opener, closer or tag. */
  method Advance(script: string, i0: nat, current0: string, mode0: Mode, statements0: seq<string>)
    returns (i: nat, current: string, mode: Mode, statements: seq<string>)
    requires i0 < |script|
    ensures Scanner(i, current, mode, statements) == Step(script, Scanner(i0, current0, mode0, statements0))
  {
    i, current, mode, statements := i0, current0, mode0, statements0;
    var c := script[i];
    var next := if i + 1 < |script| then script[i + 1] else '\0';
    if !mode.DollarQuote? && !mode.BlockComment? && c == '-' && next == '-' {
      mode := LineComment;
      current := current + [c];
      i := i + 1;
    } else if mode.LineComment? {
      current := current + [c];
      if c == '\n' || c == '\r' {
        mode := Code;
      }
      i := i + 1;
    } else if !mode.DollarQuote? && c == '/' && next == '*' {
      mode := BlockComment;
      current := current + [c, next];
      i := i + 2;
    } else if mode.BlockComment? {
      current := current + [c];
      if c == '*' && next == '/' {
        mode := Code;
        current := current + [next];
        i := i + 2;
      } else {
        i := i + 1;
      }
    } else if c == '$' && !mode.DollarQuote? {
      var start := i;
      var tag;
      i, tag := ReadTagLabel(script, start);
      if i < |script| {
        tag := tag + "$";
        assert tag == script[start..i + 1];
        mode := DollarQuote(tag);
        current := current + tag;
        i := i + 1;
      } else {
        current := current + [c];
        i := i + 1;
      }
    } else if mode.DollarQuote? && c == '$' && i + |mode.tag| <= |script|
              && script[i..i + |mode.tag|] == mode.tag {
      current := current + mode.tag;
      i := i + |mode.tag|;
      mode := Code;
    } else {
      current := current + [c];
      if !mode.DollarQuote? && c == ';' {
        statements := statements + Emit(current);
        current := [];
      }
      i := i + 1;
    }
  }

  /** Scans from the '$' at start to the next '$', collecting `$` + name. */
  method ReadTagLabel(script: string, start: nat) returns (i: nat, tag: string)
    requires start < |script| && script[start] == '$'
    ensures i == NextDollar(script, start + 1)
    ensures tag == script[start..i]
  {
    i := start + 1;
    tag := "$";
    while i < |script| && script[i] != '$'
      invariant start + 1 <= i <= |script|
      invariant NextDollar(script, i) == NextDollar(script, start + 1)
      invariant tag == script[start..i]
    {
      tag := tag + [script[i]];
      i := i + 1;
    }
  }

  // ---------------------------------------------------------------- splitter properties

  /** The constructs the splitter recognises, as they appear in a script. */
  datatype Token =
    | Plain(c: char)                        // any other character
    | Semicolon
    | Dollar(name: string, body: string)   // $name$ body $name$
    | DashComment(text: string, eol: char)  // -- text, ended by '\n' or '\r'
    | SlashComment(text: string)            // /* text */

  function DollarTag(name: string): string
  {
    "$" + name + "$"
  }

  function TokenText(t: Token): string
  {
    match t
    case Plain(c) => [c]
    case Semicolon => ";"
    case Dollar(name, body) => DollarTag(name) + body + DollarTag(name)
    case DashComment(text, eol) => "--" + text + [eol]
    case SlashComment(text) => "/*" + text + "*/"
  }

  /**
   * The tokens as PostgreSQL writes them: plain characters that start no
   * construct, tags and bodies without '$', a `--` comment ended by the
   * first line break, a block comment without '*' whose text does not end
   * in '/'.
   */
  predicate WellFormed(t: Token)
  {
    match t
    case Plain(c) => c != '-' && c != '/' && c != '$' && c != ';'
    case Semicolon => true
    case Dollar(name, body) => '$' !in name && '$' !in body
    case DashComment(text, eol) => (eol == '\n' || eol == '\r') && '\n' !in text && '\r' !in text
    case SlashComment(text) => '*' !in text && (text == [] || text[|text| - 1] != '/')
  }

  predicate AllWellFormed(ts: seq<Token>)
  {
    forall k :: 0 <= k < |ts| ==> WellFormed(ts[k])
  }

  function Text(ts: seq<Token>): string
  {
    if ts == [] then [] else TokenText(ts[0]) + Text(ts[1..])
  }

  /**
   * The reference split: the text is cut after every ';' token, the ';'
   * staying with the piece it ends, and every piece is emitted trimmed.
   */
  function Group(ts: seq<Token>, cur: string): seq<string>
  {
    if ts == [] then Emit(cur)
    else if ts[0].Semicolon? then Emit(cur + ";") + Group(ts[1..], [])
    else Group(ts[1..], cur + TokenText(ts[0]))
  }

  /**
   * For a script built from tokens, the splitter emits exactly the reference
   * pieces. A plain token is never '-' or '/', so scripts with a lone '-' or
   * '/' outside a comment (a minus sign, a division) are not covered.
   */
  lemma SplitTokenized(ts: seq<Token>)
    requires AllWellFormed(ts)
    ensures ScriptStatements(Text(ts)) == Group(ts, [])
  {
    var s := Text(ts);
    assert s[0..|s|] == s;
    TokensAdvance(s, Start, ts);
    RunAtEnd(s, FeedAll(Start, ts));
    FeedAllFinish(Start, ts);
  }

  /**
   * A '$' with no later '$' ends the scan: whatever follows it is dropped,
   * as if the script ended with that '$'.
   */
  lemma UnmatchedDollarDropsRest(ts: seq<Token>, rest: string)
    requires AllWellFormed(ts)
    requires '$' !in rest
    ensures ScriptStatements(Text(ts) + "$" + rest) == Group(ts + [Plain('$')], [])
  {
    var s := Text(ts) + "$" + rest;
    assert s[0..|Text(ts)|] == Text(ts);
    TokensAdvance(s, Start, ts);
    var st := FeedAll(Start, ts);
    assert s[st.i] == '$';
    NoDollarAfter(s, st.i, rest);
    RunStep(s, st);
    RunAtEnd(s, Step(s, st));
    FeedAllSnoc(Start, ts, Plain('$'));
    FeedAllFinish(Start, ts + [Plain('$')]);
  }

  lemma NoDollarAfter(s: string, i: nat, rest: string)
    requires i < |s| && s[i + 1..] == rest && '$' !in rest
    ensures NextDollar(s, i + 1) == |s|
  {
    forall m | i + 1 <= m < |s|
      ensures s[m] != '$'
    {
      assert s[m] == rest[m - (i + 1)];
    }
    NextDollarNone(s, i + 1);
  }

  lemma {:induction false} NextDollarNone(s: string, j: nat)
    requires j <= |s|
    requires forall m :: j <= m < |s| ==> s[m] != '$'
    ensures NextDollar(s, j) == |s|
    decreases |s| - j
  {
    if j < |s| {
      NextDollarNone(s, j + 1);
    }
  }

  /** Every statement the splitter emits is non-empty and already trimmed. */
  lemma StatementsTrimmed(script: string)
    ensures AllTrimmed(ScriptStatements(script))
  {
    RunKeepsTrimmed(script, Start);
    EmitTrimmed(Run(script, Start).cur);
  }

  predicate AllTrimmed(ss: seq<string>)
  {
    forall k :: 0 <= k < |ss| ==> ss[k] != [] && Trim(ss[k]) == ss[k]
  }

  lemma EmitTrimmed(piece: string)
    ensures AllTrimmed(Emit(piece))
  {
    TrimIdempotent(piece);
  }

  lemma {:induction false} RunKeepsTrimmed(s: string, st: Scanner)
    requires AllTrimmed(st.statements)
    ensures AllTrimmed(Run(s, st).statements)
    decreases |s| + 1 - st.i
  {
    if st.i < |s| {
      EmitTrimmed(st.cur + [s[st.i]]);
      RunKeepsTrimmed(s, Step(s, st));
    }
  }

  // ---- scanning token by token

  /** x occurs in s at i. */
  predicate Within(s: string, i: nat, x: string)
  {
    i + |x| <= |s| && s[i..i + |x|] == x
  }

  lemma WithinSplit(s: string, i: nat, a: string, b: string)
    requires Within(s, i, a + b)
    ensures Within(s, i, a) && Within(s, i + |a|, b)
  {
    assert s[i..i + |a|] == (a + b)[..|a|];
    assert s[i + |a|..i + |a| + |b|] == (a + b)[|a|..];
  }

  /** The scanner after a token read from code. */
  function Feed(st: Scanner, t: Token): Scanner
  {
    if t.Semicolon? then st.(i := st.i + 1, cur := [], statements := st.statements + Emit(st.cur + ";"))
    else st.(i := st.i + |TokenText(t)|, cur := st.cur + TokenText(t))
  }

  function FeedAll(st: Scanner, ts: seq<Token>): (r: Scanner)
    ensures r.i == st.i + |Text(ts)| && r.mode == st.mode
    decreases |ts|
  {
    if ts == [] then st else FeedAll(Feed(st, ts[0]), ts[1..])
  }

  lemma {:induction false} FeedAllSnoc(st: Scanner, ts: seq<Token>, t: Token)
    ensures FeedAll(st, ts + [t]) == Feed(FeedAll(st, ts), t)
    decreases |ts|
  {
    if ts != [] {
      assert (ts + [t])[1..] == ts[1..] + [t];
      FeedAllSnoc(Feed(st, ts[0]), ts[1..], t);
    }
  }

  lemma {:induction false} FeedAllFinish(st: Scanner, ts: seq<Token>)
    ensures Finish(FeedAll(st, ts)) == st.statements + Group(ts, st.cur)
    decreases |ts|
  {
    if ts != [] {
      var st1 := Feed(st, ts[0]);
      FeedAllFinish(st1, ts[1..]);
      GroupStep(st, ts);
      assert FeedAll(st, ts) == FeedAll(st1, ts[1..]);
    }
  }

  /** Feeding the first token moves it from the reference grouping into the scanner. */
  lemma GroupStep(st: Scanner, ts: seq<Token>)
    requires ts != []
    ensures st.statements + Group(ts, st.cur) == Feed(st, ts[0]).statements + Group(ts[1..], Feed(st, ts[0]).cur)
  {
    if ts[0].Semicolon? {
      GroupAtSemicolon(st.statements, ts, st.cur);
    } else {
      GroupAtToken(ts, st.cur);
    }
  }

  lemma GroupAtSemicolon(done: seq<string>, ts: seq<Token>, cur: string)
    requires ts != [] && ts[0].Semicolon?
    ensures done + Group(ts, cur) == (done + Emit(cur + ";")) + Group(ts[1..], [])
  {
    var head, tail := Emit(cur + ";"), Group(ts[1..], []);
    assert Group(ts, cur) == head + tail;
    StatementsAssoc(done, head, tail);
  }

  lemma StatementsAssoc(a: seq<string>, b: seq<string>, c: seq<string>)
    ensures (a + b) + c == a + (b + c)
  {
  }

  lemma GroupAtToken(ts: seq<Token>, cur: string)
    requires ts != [] && !ts[0].Semicolon?
    ensures Group(ts, cur) == Group(ts[1..], cur + TokenText(ts[0]))
  {
  }

  lemma {:induction false} TokensAdvance(s: string, st: Scanner, ts: seq<Token>)
    requires st.mode == Code && AllWellFormed(ts) && Within(s, st.i, Text(ts))
    ensures Run(s, st) == Run(s, FeedAll(st, ts))
    decreases |ts|
  {
    if ts != [] {
      var t, rest := ts[0], ts[1..];
      TokensSplit(s, st.i, ts);
      TokenAdvance(s, st, t);
      var st1 := Feed(st, t);
      assert FeedAll(st, ts) == FeedAll(st1, rest);
      TokensAdvance(s, st1, rest);
    }
  }

  /** The first token of a well-formed run, and the rest of the run just after it. */
  lemma TokensSplit(s: string, i: nat, ts: seq<Token>)
    requires ts != [] && AllWellFormed(ts) && Within(s, i, Text(ts))
    ensures WellFormed(ts[0]) && Within(s, i, TokenText(ts[0]))
    ensures AllWellFormed(ts[1..]) && Within(s, i + |TokenText(ts[0])|, Text(ts[1..]))
  {
    var t, rest := ts[0], ts[1..];
    assert Text(ts) == TokenText(t) + Text(rest);
    WithinSplit(s, i, TokenText(t), Text(rest));
    forall k | 0 <= k < |rest| ensures WellFormed(rest[k]) {
      assert rest[k] == ts[k + 1];
    }
  }

  /** One well-formed token read from code leaves the scanner in code, the token appended. */
  lemma TokenAdvance(s: string, st: Scanner, t: Token)
    requires st.mode == Code && WellFormed(t) && Within(s, st.i, TokenText(t))
    ensures Run(s, st) == Run(s, Feed(st, t))
  {
    assert s[st.i] == TokenText(t)[0];
    match t
    case Plain(c) =>
      RunStep(s, st);
    case Semicolon =>
      RunStep(s, st);
    case Dollar(name, body) =>
      DollarAdvance(s, st, name, body);
    case DashComment(text, eol) =>
      DashAdvance(s, st, text, eol);
    case SlashComment(text) =>
      SlashAdvance(s, st, text);
  }

  lemma DollarAdvance(s: string, st: Scanner, name: string, body: string)
    requires st.mode == Code && '$' !in name && '$' !in body
    requires Within(s, st.i, DollarTag(name) + body + DollarTag(name))
    ensures Run(s, st) == Run(s, Feed(st, Dollar(name, body)))
  {
    var tag := DollarTag(name);
    WithinSplit(s, st.i, tag + body, tag);
    DollarOpensBody(s, st, name, body);
    var st2 := st.(i := st.i + |tag + body|, cur := st.cur + (tag + body), mode := DollarQuote(tag));
    DollarCloses(s, st2);
    DollarFeed(st, name, body, st2);
  }

  /** Feeding a dollar-quoted token is reading the opening tag with the body, then the closing tag. */
  lemma DollarFeed(st: Scanner, name: string, body: string, st2: Scanner)
    requires st.mode == Code
    requires st2 == st.(i := st.i + |DollarTag(name) + body|, cur := st.cur + (DollarTag(name) + body),
                        mode := DollarQuote(DollarTag(name)))
    ensures Feed(st, Dollar(name, body))
            == st2.(i := st2.i + |st2.mode.tag|, cur := st2.cur + st2.mode.tag, mode := Code)
  {
    var tag := DollarTag(name);
    assert TokenText(Dollar(name, body)) == (tag + body) + tag;
    AppendAssoc(st.cur, tag + body, tag);
  }

  /** The opening tag and the body of a dollar quote, read from code. */
  lemma DollarOpensBody(s: string, st: Scanner, name: string, body: string)
    requires st.mode == Code && '$' !in name && '$' !in body
    requires Within(s, st.i, DollarTag(name) + body)
    ensures Run(s, st) == Run(s, st.(i := st.i + |DollarTag(name) + body|, cur := st.cur + (DollarTag(name) + body),
                                     mode := DollarQuote(DollarTag(name))))
  {
    var tag := DollarTag(name);
    WithinSplit(s, st.i, tag, body);
    DollarOpens(s, st, name);
    var st1 := st.(i := st.i + |tag|, cur := st.cur + tag, mode := DollarQuote(tag));
    DollarBodyAdvance(s, st1, body);
    AppendAssoc(st.cur, tag, body);
  }

  /** A '$'-free name between two '$' opens a dollar quote with that tag. */
  lemma DollarOpens(s: string, st: Scanner, name: string)
    requires st.mode == Code && '$' !in name && Within(s, st.i, DollarTag(name))
    ensures Run(s, st) == Run(s, st.(i := st.i + |DollarTag(name)|, cur := st.cur + DollarTag(name),
                                     mode := DollarQuote(DollarTag(name))))
  {
    RunStep(s, st);
    var tag := DollarTag(name);
    var k := st.i + |name| + 1;
    assert s[st.i] == tag[0] && s[k] == tag[|name| + 1];
    forall m | st.i + 1 <= m < k
      ensures s[m] != '$'
    {
      assert s[m] == name[m - st.i - 1];
    }
    NextDollarAt(s, st.i + 1, k);
    assert s[st.i..k + 1] == tag;
  }

  /** Inside a dollar quote, the tag closes it. */
  lemma DollarCloses(s: string, st: Scanner)
    requires st.mode.DollarQuote? && st.mode.tag[0] == '$' && Within(s, st.i, st.mode.tag)
    ensures Run(s, st) == Run(s, st.(i := st.i + |st.mode.tag|, cur := st.cur + st.mode.tag, mode := Code))
  {
    RunStep(s, st);
    assert s[st.i] == st.mode.tag[0];
  }

  lemma {:induction false} NextDollarAt(s: string, j: nat, k: nat)
    requires j <= k < |s| && s[k] == '$'
    requires forall m :: j <= m < k ==> s[m] != '$'
    ensures NextDollar(s, j) == k
    decreases k - j
  {
    if j < k {
      NextDollarAt(s, j + 1, k);
    }
  }

  lemma {:induction false} DollarBodyAdvance(s: string, st: Scanner, body: string)
    requires st.mode.DollarQuote? && '$' !in body && Within(s, st.i, body)
    ensures Run(s, st) == Run(s, st.(i := st.i + |body|, cur := st.cur + body))
    decreases |body|
  {
    if body != [] {
      assert body == [body[0]] + body[1..];
      WithinSplit(s, st.i, [body[0]], body[1..]);
      assert s[st.i] == body[0];
      var st1 := st.(i := st.i + 1, cur := st.cur + [body[0]]);
      RunStep(s, st);
      assert Step(s, st) == st1;
      DollarBodyAdvance(s, st1, body[1..]);
      AppendAssoc(st.cur, [body[0]], body[1..]);
      assert st1.cur + body[1..] == st.cur + body;
      assert st1.(i := st1.i + |body[1..]|, cur := st1.cur + body[1..]) == st.(i := st.i + |body|, cur := st.cur + body);
    } else {
      assert st.cur + body == st.cur;
    }
  }

  lemma DashAdvance(s: string, st: Scanner, text: string, eol: char)
    requires st.mode == Code && (eol == '\n' || eol == '\r') && '\n' !in text && '\r' !in text
    requires Within(s, st.i, "--" + text + [eol])
    ensures Run(s, st) == Run(s, Feed(st, DashComment(text, eol)))
  {
    WithinSplit(s, st.i, "--" + text, [eol]);
    WithinSplit(s, st.i, "-", "-" + text);
    assert s[st.i] == '-' && s[st.i + 1] == '-';
    RunStep(s, st);
    var st1 := st.(i := st.i + 1, cur := st.cur + "-", mode := LineComment);
    assert Step(s, st) == st1;
    var x := "-" + text;
    LineTextAdvance(s, st1, x);
    var st2 := st1.(i := st1.i + |x|, cur := st1.cur + x);
    assert s[st2.i] == eol;
    RunStep(s, st2);
    var st3 := st2.(i := st2.i + 1, cur := st2.cur + [eol], mode := Code);
    assert Step(s, st2) == st3;
    PiecesFeed(st, DashComment(text, eol), "-", x, [eol], st3);
  }

  /** A token read in three pieces, back in code, is the token fed at once. */
  lemma PiecesFeed(st: Scanner, t: Token, a: string, b: string, c: string, st3: Scanner)
    requires !t.Semicolon? && st.mode == Code && TokenText(t) == (a + b) + c
    requires st3 == st.(i := st.i + |a| + |b| + |c|, cur := ((st.cur + a) + b) + c)
    ensures st3 == Feed(st, t)
  {
    AppendAssoc(st.cur, a, b);
    AppendAssoc(st.cur, a + b, c);
  }

  lemma {:induction false} LineTextAdvance(s: string, st: Scanner, x: string)
    requires st.mode == LineComment && '\n' !in x && '\r' !in x && Within(s, st.i, x)
    ensures Run(s, st) == Run(s, st.(i := st.i + |x|, cur := st.cur + x))
    decreases |x|
  {
    if x != [] {
      assert x == [x[0]] + x[1..];
      WithinSplit(s, st.i, [x[0]], x[1..]);
      assert s[st.i] == x[0];
      var st1 := st.(i := st.i + 1, cur := st.cur + [x[0]]);
      RunStep(s, st);
      assert Step(s, st) == st1;
      LineTextAdvance(s, st1, x[1..]);
      AppendAssoc(st.cur, [x[0]], x[1..]);
      assert st1.cur + x[1..] == st.cur + x;
      assert st1.(i := st1.i + |x[1..]|, cur := st1.cur + x[1..]) == st.(i := st.i + |x|, cur := st.cur + x);
    } else {
      assert st.cur + x == st.cur;
    }
  }

  lemma SlashAdvance(s: string, st: Scanner, text: string)
    requires st.mode == Code && '*' !in text && (text == [] || text[|text| - 1] != '/')
    requires Within(s, st.i, "/*" + text + "*/")
    ensures Run(s, st) == Run(s, Feed(st, SlashComment(text)))
  {
    WithinSplit(s, st.i, "/*" + text, "*/");
    WithinSplit(s, st.i, "/*", text);
    assert s[st.i] == '/' && s[st.i + 1] == '*';
    RunStep(s, st);
    var st1 := st.(i := st.i + 2, cur := st.cur + "/*", mode := BlockComment);
    assert Step(s, st) == st1;
    assert CharAt(s, st1.i + |text|) == '*';
    BlockTextAdvance(s, st1, text);
    var st2 := st1.(i := st1.i + |text|, cur := st1.cur + text);
    assert s[st2.i] == '*' && s[st2.i + 1] == '/';
    RunStep(s, st2);
    var st3 := st2.(i := st2.i + 2, cur := st2.cur + "*/", mode := Code);
    assert Step(s, st2) == st3;
    PiecesFeed(st, SlashComment(text), "/*", text, "*/", st3);
  }

  lemma {:induction false} BlockTextAdvance(s: string, st: Scanner, x: string)
    requires st.mode == BlockComment && '*' !in x && Within(s, st.i, x)
    requires x != [] && x[|x| - 1] == '/' ==> CharAt(s, st.i + |x|) != '*'
    ensures Run(s, st) == Run(s, st.(i := st.i + |x|, cur := st.cur + x))
    decreases |x|
  {
    if x != [] {
      assert x == [x[0]] + x[1..];
      WithinSplit(s, st.i, [x[0]], x[1..]);
      assert s[st.i] == x[0];
      assert |x| > 1 ==> s[st.i + 1] == x[1];
      var st1 := st.(i := st.i + 1, cur := st.cur + [x[0]]);
      RunStep(s, st);
      assert Step(s, st) == st1;
      BlockTextAdvance(s, st1, x[1..]);
      AppendAssoc(st.cur, [x[0]], x[1..]);
      assert st1.cur + x[1..] == st.cur + x;
      assert st1.(i := st1.i + |x[1..]|, cur := st1.cur + x[1..]) == st.(i := st.i + |x|, cur := st.cur + x);
    } else {
      assert st.cur + x == st.cur;
    }
  }

  // ---------------------------------------------------------------- schemas

  /**
   * executePipeline's fallback for a blank step schema: the connection's
   * schema when that is not blank either, else "public".
   */
  function ResolveSchema(stepSchema: Option<string>, connSchema: Option<string>): string
  {
    if stepSchema.Some? && Trim(stepSchema.value) != [] then stepSchema.value
    else if connSchema.Some? && Trim(connSchema.value) != [] then connSchema.value
    else "public"
  }

  /** executeStep's fallback: the connection's schema whenever it is set, blank or not. */
  function StepSchema(stepSchema: Option<string>, connSchema: Option<string>): string
  {
    if stepSchema.Some? && Trim(stepSchema.value) != [] then stepSchema.value
    else if connSchema.Some? then connSchema.value
    else "public"
  }

  /** The resolved schema is never blank, and a step's own non-blank schema wins. */
  lemma ResolvedSchemaNotBlank(stepSchema: Option<string>, connSchema: Option<string>)
    ensures !IsBlank(ResolveSchema(stepSchema, connSchema))
    ensures stepSchema.Some? && !IsBlank(stepSchema.value) ==> ResolveSchema(stepSchema, connSchema) == stepSchema.value
    ensures (stepSchema.None? || IsBlank(stepSchema.value)) && connSchema.Some? && !IsBlank(connSchema.value)
            ==> ResolveSchema(stepSchema, connSchema) == connSchema.value
  {
    if stepSchema.Some? {
      TrimEmptyIffBlank(stepSchema.value);
    }
    if connSchema.Some? {
      TrimEmptyIffBlank(connSchema.value);
    }
    assert !IsTrimChar("public"[0]);
  }

  /** executeStep runs a step on exactly the schema executePipeline resolved for it. */
  lemma StepSeesResolvedSchema(stepSchema: Option<string>, connSchema: Option<string>)
    ensures StepSchema(Some(ResolveSchema(stepSchema, connSchema)), connSchema) == ResolveSchema(stepSchema, connSchema)
  {
    ResolvedSchemaNotBlank(stepSchema, connSchema);
    TrimEmptyIffBlank(ResolveSchema(stepSchema, connSchema));
  }

  // ---------------------------------------------------------------- step order

  predicate HasOrder(steps: seq<PipelineStepEntity>)
  {
    forall k :: 0 <= k < |steps| ==> steps[k].stepOrder.Some?
  }

  function Order(e: PipelineStepEntity): int
    requires e.stepOrder.Some?
  {
    e.stepOrder.value
  }

  /** Puts x in front of the first step whose order is not smaller. */
  function InsertByOrder(x: PipelineStepEntity, sorted: seq<PipelineStepEntity>): (r: seq<PipelineStepEntity>)
    requires x.stepOrder.Some? && HasOrder(sorted)
    ensures HasOrder(r) && multiset(r) == multiset(sorted) + multiset{x}
    ensures r[0] == x || r[0] == sorted[0]
  {
    if sorted == [] || Order(x) <= Order(sorted[0]) then [x] + sorted
    else
      assert sorted == [sorted[0]] + sorted[1..];
      [sorted[0]] + InsertByOrder(x, sorted[1..])
  }

  /** List.sort with the stepOrder comparator: a stable ascending sort. */
  function SortByOrder(steps: seq<PipelineStepEntity>): (r: seq<PipelineStepEntity>)
    requires HasOrder(steps)
    ensures HasOrder(r) && multiset(r) == multiset(steps)
  {
    if steps == [] then []
    else
      assert steps == [steps[0]] + steps[1..];
      InsertByOrder(steps[0], SortByOrder(steps[1..]))
  }

  predicate SortedByOrder(steps: seq<PipelineStepEntity>)
    requires HasOrder(steps)
  {
    forall j, k :: 0 <= j < k < |steps| ==> Order(steps[j]) <= Order(steps[k])
  }

  /** The steps with order o, in their relative order. */
  function WithOrder(steps: seq<PipelineStepEntity>, o: int): seq<PipelineStepEntity>
    requires HasOrder(steps)
  {
    if steps == [] then []
    else (if Order(steps[0]) == o then [steps[0]] else []) + WithOrder(steps[1..], o)
  }

  /**
   * The order a run executes the steps in. The comparator unboxes both
   * orders, so a null order throws as soon as there are two steps to compare.
   */
  function ExecutionOrder(steps: seq<PipelineStepEntity>): (r: Option<seq<PipelineStepEntity>>)
    ensures r.None? <==> |steps| >= 2 && !HasOrder(steps)
    ensures r.Some? ==> multiset(r.value) == multiset(steps) && |r.value| == |steps|
  {
    if |steps| < 2 then Some(steps)
    else if HasOrder(steps) then
      var sorted := SortByOrder(steps);
      assert |multiset(sorted)| == |multiset(steps)|;
      Some(sorted)
    else None
  }

  lemma {:induction false} InsertByOrderSorted(x: PipelineStepEntity, sorted: seq<PipelineStepEntity>)
    requires x.stepOrder.Some? && HasOrder(sorted) && SortedByOrder(sorted)
    ensures SortedByOrder(InsertByOrder(x, sorted))
  {
    if sorted != [] && Order(x) > Order(sorted[0]) {
      var rest := InsertByOrder(x, sorted[1..]);
      InsertByOrderSorted(x, sorted[1..]);
      RestAbove(x, sorted);
      ConsSorted(sorted[0], rest);
      assert InsertByOrder(x, sorted) == [sorted[0]] + rest;
    }
  }

  /** Inserting x behind the first step leaves only steps ordered at or after that first one. */
  lemma RestAbove(x: PipelineStepEntity, sorted: seq<PipelineStepEntity>)
    requires x.stepOrder.Some? && HasOrder(sorted) && SortedByOrder(sorted)
    requires sorted != [] && Order(x) > Order(sorted[0])
    ensures var rest := InsertByOrder(x, sorted[1..]);
            forall m :: 0 <= m < |rest| ==> Order(sorted[0]) <= Order(rest[m])
  {
    var rest := InsertByOrder(x, sorted[1..]);
    forall m | 0 <= m < |rest|
      ensures Order(sorted[0]) <= Order(rest[m])
    {
      assert rest[m] in multiset(sorted[1..]) + multiset{x};
      if rest[m] != x {
        var j :| 1 <= j < |sorted| && sorted[j] == rest[m];
      }
    }
  }

  /** A step ordered at or before every step of a sorted run heads a sorted run. */
  lemma ConsSorted(h: PipelineStepEntity, rest: seq<PipelineStepEntity>)
    requires h.stepOrder.Some? && HasOrder(rest) && SortedByOrder(rest)
    requires forall m :: 0 <= m < |rest| ==> Order(h) <= Order(rest[m])
    ensures HasOrder([h] + rest) && SortedByOrder([h] + rest)
  {
    var s := [h] + rest;
    assert HasOrder(s) by {
      forall k | 0 <= k < |s| ensures s[k].stepOrder.Some? {
        if k > 0 { assert s[k] == rest[k - 1]; }
      }
    }
    forall j, k | 0 <= j < k < |s| ensures Order(s[j]) <= Order(s[k]) {
      assert s[k] == rest[k - 1];
      if j > 0 { assert s[j] == rest[j - 1]; }
    }
  }

  /** The run order is ascending in stepOrder. */
  lemma {:induction false} SortByOrderSorted(steps: seq<PipelineStepEntity>)
    requires HasOrder(steps)
    ensures SortedByOrder(SortByOrder(steps))
  {
    if steps != [] {
      SortByOrderSorted(steps[1..]);
      InsertByOrderSorted(steps[0], SortByOrder(steps[1..]));
    }
  }

  lemma {:induction false} InsertByOrderWithOrder(x: PipelineStepEntity, sorted: seq<PipelineStepEntity>, o: int)
    requires x.stepOrder.Some? && HasOrder(sorted)
    ensures WithOrder(InsertByOrder(x, sorted), o) == (if Order(x) == o then [x] else []) + WithOrder(sorted, o)
  {
    if sorted == [] || Order(x) <= Order(sorted[0]) {
      WithOrderCons(x, sorted, o);
    } else {
      var rest := InsertByOrder(x, sorted[1..]);
      assert InsertByOrder(x, sorted) == [sorted[0]] + rest;
      WithOrderCons(sorted[0], rest, o);
      WithOrderCons(sorted[0], sorted[1..], o);
      assert [sorted[0]] + sorted[1..] == sorted;
      InsertByOrderWithOrder(x, sorted[1..], o);
      var a, b, w := (if Order(sorted[0]) == o then [sorted[0]] else []), (if Order(x) == o then [x] else []),
                     WithOrder(sorted[1..], o);
      assert a == [] || b == [];
      StepsSwap(a, b, w);
    }
  }

  lemma WithOrderCons(h: PipelineStepEntity, rest: seq<PipelineStepEntity>, o: int)
    requires h.stepOrder.Some? && HasOrder(rest)
    ensures HasOrder([h] + rest)
    ensures WithOrder([h] + rest, o) == (if Order(h) == o then [h] else []) + WithOrder(rest, o)
  {
    assert ([h] + rest)[1..] == rest;
  }

  /** Two runs of which one is empty can be swapped in front of a third. */
  lemma StepsSwap(a: seq<PipelineStepEntity>, b: seq<PipelineStepEntity>, w: seq<PipelineStepEntity>)
    requires a == [] || b == []
    ensures a + (b + w) == b + (a + w)
  {
  }

  /** Stability: steps with equal order keep their relative order. */
  lemma {:induction false} SortByOrderStable(steps: seq<PipelineStepEntity>, o: int)
    requires HasOrder(steps)
    ensures WithOrder(SortByOrder(steps), o) == WithOrder(steps, o)
  {
    if steps != [] {
      SortByOrderStable(steps[1..], o);
      InsertByOrderWithOrder(steps[0], SortByOrder(steps[1..]), o);
    }
  }

  // ---------------------------------------------------------------- running the steps

  /** What executeStep reports for one step; its database work is not modelled. */
  datatype StepOutcome = StepOutcome(success: bool, sourceRows: int, migratedRows: int)

  /** Steps a run executes: configured, draft, or error ones being retried. */
  predicate Runnable(e: PipelineStepEntity)
  {
    e.status == Some("configured") || e.status == Some("draft") || e.status == Some("error")
  }

  /** A step entity after its turn in the loop. */
  function AfterTurn(e: PipelineStepEntity, o: StepOutcome, source: Option<string>, target: Option<string>): PipelineStepEntity
  {
    if !Runnable(e) then e
    else e.(sourceSchema := Some(ResolveSchema(e.sourceSchema, source)),
            targetSchema := Some(ResolveSchema(e.targetSchema, target)),
            status := Some(if o.success then "completed" else "error"))
  }

  function Turns(steps: seq<PipelineStepEntity>, outcomes: seq<StepOutcome>, source: Option<string>, target: Option<string>)
    : (r: seq<PipelineStepEntity>)
    requires |outcomes| == |steps|
    ensures |r| == |steps|
  {
    if steps == [] then []
    else Turns(steps[..|steps| - 1], outcomes[..|steps| - 1], source, target)
         + [AfterTurn(steps[|steps| - 1], outcomes[|steps| - 1], source, target)]
  }

  lemma {:induction false} TurnsAt(steps: seq<PipelineStepEntity>, outcomes: seq<StepOutcome>,
                                   source: Option<string>, target: Option<string>, k: nat)
    requires |outcomes| == |steps| && k < |steps|
    ensures Turns(steps, outcomes, source, target)[k] == AfterTurn(steps[k], outcomes[k], source, target)
  {
    if k < |steps| - 1 {
      TurnsAt(steps[..|steps| - 1], outcomes[..|steps| - 1], source, target, k);
    }
  }

  /** Sum of sourceRows over the steps that ran. */
  function TotalRows(steps: seq<PipelineStepEntity>, outcomes: seq<StepOutcome>): int
    requires |outcomes| == |steps|
  {
    if steps == [] then 0
    else TotalRows(steps[..|steps| - 1], outcomes[..|steps| - 1])
         + (if Runnable(steps[|steps| - 1]) then outcomes[|steps| - 1].sourceRows else 0)
  }

  /** Sum of migratedRows over the steps that ran and succeeded. */
  function ProcessedRows(steps: seq<PipelineStepEntity>, outcomes: seq<StepOutcome>): int
    requires |outcomes| == |steps|
  {
    if steps == [] then 0
    else ProcessedRows(steps[..|steps| - 1], outcomes[..|steps| - 1])
         + (if Runnable(steps[|steps| - 1]) && outcomes[|steps| - 1].success then outcomes[|steps| - 1].migratedRows else 0)
  }

  /** Sum of sourceRows over the steps that ran and failed. */
  function FailedRows(steps: seq<PipelineStepEntity>, outcomes: seq<StepOutcome>): int
    requires |outcomes| == |steps|
  {
    if steps == [] then 0
    else FailedRows(steps[..|steps| - 1], outcomes[..|steps| - 1])
         + (if Runnable(steps[|steps| - 1]) && !outcomes[|steps| - 1].success then outcomes[|steps| - 1].sourceRows else 0)
  }

  predicate AnyRunnable(steps: seq<PipelineStepEntity>)
  {
    exists k :: 0 <= k < |steps| && Runnable(steps[k])
  }

  /** The execution's counters, written after every step that ran and left alone otherwise. */
  function Progress(e: PipelineExecutionEntity, steps: seq<PipelineStepEntity>, outcomes: seq<StepOutcome>)
    : PipelineExecutionEntity
    requires |outcomes| == |steps|
  {
    if AnyRunnable(steps) then
      e.(totalRows := Some(TotalRows(steps, outcomes)),
         processedRows := Some(ProcessedRows(steps, outcomes)),
         failedRows := Some(FailedRows(steps, outcomes)))
    else e
  }

  /** The step loop of executePipeline over the ordered steps. */
  method RunSteps(steps: seq<PipelineStepEntity>, outcomes: seq<StepOutcome>, source: Option<string>,
                  target: Option<string>, execution: PipelineExecutionEntity)
    returns (done: seq<PipelineStepEntity>, progress: PipelineExecutionEntity)
    requires |outcomes| == |steps|
    ensures done == Turns(steps, outcomes, source, target)
    ensures progress == Progress(execution, steps, outcomes)
  {
    done := [];
    progress := execution;
    var total, processed, failed := 0, 0, 0;
    var k := 0;
    while k < |steps|
      invariant k <= |steps|
      invariant done == Turns(steps[..k], outcomes[..k], source, target)
      invariant total == TotalRows(steps[..k], outcomes[..k])
      invariant processed == ProcessedRows(steps[..k], outcomes[..k])
      invariant failed == FailedRows(steps[..k], outcomes[..k])
      invariant progress == Progress(execution, steps[..k], outcomes[..k])
    {
      PrefixStep(steps, outcomes, k);
      var step := steps[k];
      if !Runnable(step) {
        done := done + [step];
      } else {
        var outcome := outcomes[k];
        step := step.(sourceSchema := Some(ResolveSchema(step.sourceSchema, source)),
                      targetSchema := Some(ResolveSchema(step.targetSchema, target)));
        total := total + outcome.sourceRows;
        if outcome.success {
          processed := processed + outcome.migratedRows;
          step := step.(status := Some("completed"));
        } else {
          failed := failed + outcome.sourceRows;
          step := step.(status := Some("error"));
        }
        progress := progress.(totalRows := Some(total), processedRows := Some(processed), failedRows := Some(failed));
        done := done + [step];
      }
      k := k + 1;
    }
    assert steps[..k] == steps && outcomes[..k] == outcomes;
  }

  /** The facts about prefix k + 1 the loop step needs. */
  lemma PrefixStep(steps: seq<PipelineStepEntity>, outcomes: seq<StepOutcome>, k: nat)
    requires |outcomes| == |steps| && k < |steps|
    ensures steps[..k + 1][..k] == steps[..k] && outcomes[..k + 1][..k] == outcomes[..k]
    ensures AnyRunnable(steps[..k + 1]) <==> AnyRunnable(steps[..k]) || Runnable(steps[k])
  {
    assert steps[..k + 1][..k] == steps[..k];
    assert steps[..k + 1][k] == steps[k];
  }

  /** Whether a step ends the run completed: it ran and succeeded, or it had completed before. */
  predicate EndsCompleted(e: PipelineStepEntity, o: StepOutcome)
  {
    if Runnable(e) then o.success else e.status == Some("completed")
  }

  predicate AllCompleted(steps: seq<PipelineStepEntity>)
  {
    forall k :: 0 <= k < |steps| ==> steps[k].status == Some("completed")
  }

  /**
   * Only configured, draft and error steps run; each ends completed or
   * error, on resolved schemas, with nothing else changed. Every other
   * step is left as it was.
   */
  lemma TurnChanges(steps: seq<PipelineStepEntity>, outcomes: seq<StepOutcome>,
                    source: Option<string>, target: Option<string>, k: nat)
    requires |outcomes| == |steps| && k < |steps|
    ensures var e, r := steps[k], Turns(steps, outcomes, source, target)[k];
      && (!Runnable(e) ==> r == e)
      && (Runnable(e) ==>
            && r.status == Some(if outcomes[k].success then "completed" else "error")
            && r.sourceSchema.Some? && !IsBlank(r.sourceSchema.value)
            && r.targetSchema.Some? && !IsBlank(r.targetSchema.value)
            && r.(sourceSchema := e.sourceSchema, targetSchema := e.targetSchema, status := e.status) == e)
  {
    TurnsAt(steps, outcomes, source, target, k);
    ResolvedSchemaNotBlank(steps[k].sourceSchema, source);
    ResolvedSchemaNotBlank(steps[k].targetSchema, target);
  }

  /** The run completes iff every step ends completed, whether by running now or from before. */
  lemma TurnsCompleted(steps: seq<PipelineStepEntity>, outcomes: seq<StepOutcome>,
                       source: Option<string>, target: Option<string>)
    requires |outcomes| == |steps|
    ensures AllCompleted(Turns(steps, outcomes, source, target))
            <==> forall k :: 0 <= k < |steps| ==> EndsCompleted(steps[k], outcomes[k])
  {
    var done := Turns(steps, outcomes, source, target);
    forall k | 0 <= k < |steps|
      ensures done[k].status == Some("completed") <==> EndsCompleted(steps[k], outcomes[k])
    {
      TurnsAt(steps, outcomes, source, target, k);
    }
  }

  /** A run in which every executed step succeeded reports no failed rows. */
  lemma {:induction false} NoFailedRows(steps: seq<PipelineStepEntity>, outcomes: seq<StepOutcome>)
    requires |outcomes| == |steps|
    requires forall k :: 0 <= k < |steps| && Runnable(steps[k]) ==> outcomes[k].success
    ensures FailedRows(steps, outcomes) == 0
  {
    if steps != [] {
      NoFailedRows(steps[..|steps| - 1], outcomes[..|steps| - 1]);
    }
  }

  // ---------------------------------------------------------------- executePipeline

  /** After executePipeline: the saved pipeline and execution, or the exception it threw. */
  datatype PipelineRun = Ran(pipeline: PipelineEntity, execution: PipelineExecutionEntity) | Thrown(exception: string)

  /** The loop of executePipeline that picks the source and target connections. */
  method FindConnections(conns: seq<PipelineConnectionEntity>)
    returns (source: Option<PipelineConnectionEntity>, target: Option<PipelineConnectionEntity>)
    ensures source == LastConnection(conns, "source") && target == LastConnection(conns, "target")
  {
    source, target := None, None;
    var k := 0;
    while k < |conns|
      invariant k <= |conns|
      invariant source == LastConnection(conns[..k], "source") && target == LastConnection(conns[..k], "target")
    {
      assert conns[..k + 1][..k] == conns[..k];
      if conns[k].connectionType == Some("source") {
        source := Some(conns[k]);
      } else if conns[k].connectionType == Some("target") {
        target := Some(conns[k]);
      }
      k := k + 1;
    }
    assert conns[..k] == conns;
  }

  /**
   * executePipeline. The two lookups are given as their results, the
   * outcome of each executed step as outcomes (aligned with the run
   * order), and the clock as now.
   */
  function PipelineRunResult(pipelineId: string, executionId: string, pipeline: Option<PipelineEntity>,
                             execution: Option<PipelineExecutionEntity>, outcomes: seq<StepOutcome>, now: int): PipelineRun
    requires pipeline.Some? ==> |outcomes| == |pipeline.value.steps|
  {
    if execution.None? then
      Thrown("IllegalArgumentException: Execution not found: " + executionId + " (after 5 retries)")
    else if pipeline.None? then Thrown("IllegalArgumentException: Pipeline not found: " + pipelineId)
    else
      var p, e := pipeline.value, execution.value;
      if e.pipelineId.None? then Thrown("NullPointerException")
      else if e.pipelineId.value != pipelineId then Thrown("IllegalStateException: Execution does not belong to pipeline")
      else if e.status != Some("running") then
        Thrown("IllegalStateException: Execution is not in running status: " + JavaString(e.status))
      else
        var source, target := LastConnection(p.connections, "source"), LastConnection(p.connections, "target");
        if source.None? || target.None? then
          Ran(p.(status := Some("error")),
              e.(status := Some("failed"), errorMessage := Some("Connections not configured"), endTime := Some(now)))
        else
          match ExecutionOrder(p.steps)
          case None => Thrown("NullPointerException")
          case Some(order) =>
            var done := Turns(order, outcomes, source.value.schema, target.value.schema);
            var completed := AllCompleted(done);
            Ran(p.(steps := done, status := Some(if completed then "completed" else "error")),
                Progress(e, order, outcomes).(status := Some(if completed then "completed" else "failed"),
                                              endTime := Some(now)))
  }

  method ExecutePipeline(pipelineId: string, executionId: string, pipeline: Option<PipelineEntity>,
                         execution: Option<PipelineExecutionEntity>, outcomes: seq<StepOutcome>, now: int)
    returns (r: PipelineRun)
    requires pipeline.Some? ==> |outcomes| == |pipeline.value.steps|
    ensures r == PipelineRunResult(pipelineId, executionId, pipeline, execution, outcomes, now)
  {
    if execution.None? {
      return Thrown("IllegalArgumentException: Execution not found: " + executionId + " (after 5 retries)");
    }
    if pipeline.None? {
      return Thrown("IllegalArgumentException: Pipeline not found: " + pipelineId);
    }
    var p, e := pipeline.value, execution.value;
    if e.pipelineId.None? {
      return Thrown("NullPointerException");
    }
    if e.pipelineId.value != pipelineId {
      return Thrown("IllegalStateException: Execution does not belong to pipeline");
    }
    if e.status != Some("running") {
      return Thrown("IllegalStateException: Execution is not in running status: " + JavaString(e.status));
    }
    var source, target := FindConnections(p.connections);
    if source.None? || target.None? {
      e := e.(status := Some("failed"), errorMessage := Some("Connections not configured"), endTime := Some(now));
      p := p.(status := Some("error"));
      return Ran(p, e);
    }
    var order := ExecutionOrder(p.steps);
    if order.None? {
      return Thrown("NullPointerException");
    }
    var done;
    done, e := RunSteps(order.value, outcomes, source.value.schema, target.value.schema, e);
    p := p.(steps := done);
    if AllCompleted(done) {
      e := e.(status := Some("completed"));
      p := p.(status := Some("completed"));
    } else {
      e := e.(status := Some("failed"));
      p := p.(status := Some("error"));
    }
    e := e.(endTime := Some(now));
    r := Ran(p, e);
  }

  /** Whether a run gets past its checks and connection lookup to the step loop. */
  predicate ReachesSteps(pipelineId: string, p: PipelineEntity, e: PipelineExecutionEntity)
  {
    && e.pipelineId == Some(pipelineId) && e.status == Some("running")
    && LastConnection(p.connections, "source").Some? && LastConnection(p.connections, "target").Some?
    && ExecutionOrder(p.steps).Some?
  }

  /**
   * A run that reaches the step loop marks the execution completed and the
   * pipeline completed iff every step ends completed; otherwise failed and
   * error. The counters hold the sums over the executed steps.
   */
  lemma RunFinalStatus(pipelineId: string, executionId: string, p: PipelineEntity, e: PipelineExecutionEntity,
                       outcomes: seq<StepOutcome>, now: int)
    requires |outcomes| == |p.steps| && ReachesSteps(pipelineId, p, e)
    ensures var r, order := PipelineRunResult(pipelineId, executionId, Some(p), Some(e), outcomes, now),
                            ExecutionOrder(p.steps).value;
      && r.Ran?
      && (var completed := forall k :: 0 <= k < |order| ==> EndsCompleted(order[k], outcomes[k]);
          && r.execution.status == Some(if completed then "completed" else "failed")
          && r.pipeline.status == Some(if completed then "completed" else "error"))
      && (AnyRunnable(order) ==>
            && r.execution.totalRows == Some(TotalRows(order, outcomes))
            && r.execution.processedRows == Some(ProcessedRows(order, outcomes))
            && r.execution.failedRows == Some(FailedRows(order, outcomes)))
      && r.execution.endTime == Some(now)
  {
    var order := ExecutionOrder(p.steps).value;
    TurnsCompleted(order, outcomes, LastConnection(p.connections, "source").value.schema,
                   LastConnection(p.connections, "target").value.schema);
  }

  /** Without both a source and a target connection no step runs. */
  lemma RunWithoutConnections(pipelineId: string, executionId: string, p: PipelineEntity, e: PipelineExecutionEntity,
                              outcomes: seq<StepOutcome>, now: int)
    requires |outcomes| == |p.steps| && e.pipelineId == Some(pipelineId) && e.status == Some("running")
    requires forall k :: 0 <= k < |p.connections| ==> p.connections[k].connectionType != Some("target")
    ensures var r := PipelineRunResult(pipelineId, executionId, Some(p), Some(e), outcomes, now);
      r.Ran? && r.pipeline.steps == p.steps && r.pipeline.status == Some("error")
      && r.execution.status == Some("failed") && r.execution.errorMessage == Some("Connections not configured")
  {
  }
}
