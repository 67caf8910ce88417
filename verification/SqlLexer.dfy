/** The lexer of the red-line test: identifiers of an SQL text outside literals and
    comments, and the verdict on them (tools/regression.py:572-607 and 856-874). */
module SqlLexer {

  datatype Option<+T> = None | Some(value: T)

  predicate Quote(c: char) { c == '\'' || c == '"' }

  predicate Ident(c: char) { 'A' <= c <= 'Z' || 'a' <= c <= 'z' || '0' <= c <= '9' || c == '_' }

  predicate Starts(s: string, a: char, b: char) { |s| >= 2 && s[0] == a && s[1] == b }

  predicate LineComment(s: string) { s != "" && (Starts(s, '-', '-') || s[0] == '#') }

  // ---------- blanking ----------

  /** What follows a literal, from inside it. */
  function AfterLiteral(s: string, q: char): (r: string)
    ensures |r| <= |s|
    decreases |s|
  {
    if s == "" then ""
    else if s[0] == '\\' then (if |s| > 1 then AfterLiteral(s[2..], q) else "")
    else if s[0] == q then (if |s| > 1 && s[1] == q then AfterLiteral(s[2..], q) else s[1..])
    else AfterLiteral(s[1..], q)
  }

  function AfterLine(s: string): (r: string)
    ensures |r| <= |s|
  {
    if s == "" || s[0] == '\n' then s else AfterLine(s[1..])
  }

  /** What follows a block comment, from inside it. */
  function AfterBlock(s: string): (r: string)
    ensures |r| <= |s|
  {
    if s == "" then "" else if Starts(s, '*', '/') then s[2..] else AfterBlock(s[1..])
  }

  lemma {:induction false} LineShortens(s: string)
    requires LineComment(s)
    ensures |AfterLine(s)| < |s|
  {
  }

  /** The text with literals and block comments blanked, and line comments gone. */
  function Blanked(s: string): string
    decreases |s|
  {
    if s == "" then ""
    else if Quote(s[0]) then [' '] + Blanked(AfterLiteral(s[1..], s[0]))
    else if LineComment(s) then
      LineShortens(s);
      Blanked(AfterLine(s))
    else if Starts(s, '/', '*') then [' '] + Blanked(AfterBlock(s[2..]))
    else [s[0]] + Blanked(s[1..])
  }

  function RunLength(t: string): (n: nat)
    ensures n <= |t|
  {
    if t == "" || !Ident(t[0]) then 0 else 1 + RunLength(t[1..])
  }

  function Lower(w: string): (r: string)
    ensures |r| == |w|
  {
    if w == "" then "" else [if 'A' <= w[0] <= 'Z' then (w[0] as int + 32) as char else w[0]] + Lower(w[1..])
  }

  /** The identifiers of a text. */
  function Words(t: string): seq<string>
    decreases |t|
  {
    if t == "" then []
    else if !Ident(t[0]) then Words(t[1..])
    else [Lower(t[..RunLength(t)])] + Words(t[RunLength(t)..])
  }

  /** `sql_tokens`. */
  method SqlTokens(sql: string) returns (tokens: seq<string>)
    ensures tokens == Words(Blanked(sql))
  {
    var buf, i := "", 0;
    while i < |sql|
      invariant i <= |sql| && buf + Blanked(sql[i..]) == Blanked(sql)
    {
      var c := sql[i];
      var rest := sql[i..];
      assert rest[0] == c && rest[1..] == sql[i + 1..];
      assert i + 1 < |sql| ==> rest[1] == sql[i + 1] && rest[2..] == sql[i + 2..];
      if c == '\'' || c == '"' {
        i := SkipLiteral(sql, i + 1, c);
        OneMoved(buf, ' ', Blanked(sql[i..]));
        buf := buf + [' '];
      } else if (c == '-' && i + 1 < |sql| && sql[i + 1] == '-') || c == '#' {
        i := SkipLine(sql, i);
      } else if c == '/' && i + 1 < |sql| && sql[i + 1] == '*' {
        i := SkipBlock(sql, i + 2);
        OneMoved(buf, ' ', Blanked(sql[i..]));
        buf := buf + [' '];
      } else {
        OneMoved(buf, c, Blanked(sql[i + 1..]));
        buf := buf + [c];
        i := i + 1;
      }
    }
    assert sql[|sql|..] == "" && buf + "" == buf;
    tokens := Split(buf);
  }

  lemma {:induction false} OneMoved(buf: string, c: char, more: string)
    ensures buf + ([c] + more) == (buf + [c]) + more
  {
  }

  method SkipLiteral(sql: string, start: nat, q: char) returns (i: nat)
    requires start <= |sql|
    ensures start <= i <= |sql| && sql[i..] == AfterLiteral(sql[start..], q)
  {
    i := start;
    while i < |sql|
      invariant start <= i <= |sql| && AfterLiteral(sql[i..], q) == AfterLiteral(sql[start..], q)
    {
      var rest := sql[i..];
      assert rest[0] == sql[i] && rest[1..] == sql[i + 1..];
      assert i + 1 < |sql| ==> rest[1] == sql[i + 1] && rest[2..] == sql[i + 2..];
      if sql[i] == '\\' {
        i := if i + 1 < |sql| then i + 2 else |sql|;
        continue;
      }
      if sql[i] == q {
        if i + 1 < |sql| && sql[i + 1] == q {
          i := i + 2;
          continue;
        }
        i := i + 1;
        return;
      }
      i := i + 1;
    }
  }

  method SkipLine(sql: string, start: nat) returns (i: nat)
    requires start < |sql| && LineComment(sql[start..])
    ensures start < i <= |sql| && sql[i..] == AfterLine(sql[start..])
  {
    i := start;
    while i < |sql| && sql[i] != '\n'
      invariant start <= i <= |sql| && AfterLine(sql[i..]) == AfterLine(sql[start..])
    {
      assert sql[i..][0] == sql[i] && sql[i..][1..] == sql[i + 1..];
      i := i + 1;
    }
    assert i < |sql| ==> sql[i..][0] == sql[i];
    LineShortens(sql[start..]);
  }

  /** Searching the end of a block comment, and past it. */
  method SkipBlock(sql: string, start: nat) returns (i: nat)
    requires start <= |sql|
    ensures start <= i <= |sql| && sql[i..] == AfterBlock(sql[start..])
  {
    i := start;
    while i < |sql|
      invariant start <= i <= |sql| && AfterBlock(sql[i..]) == AfterBlock(sql[start..])
    {
      var rest := sql[i..];
      assert rest[0] == sql[i] && rest[1..] == sql[i + 1..];
      if i + 1 < |sql| && sql[i] == '*' && sql[i + 1] == '/' {
        assert rest[1] == sql[i + 1] && rest[2..] == sql[i + 2..];
        i := i + 2;
        return;
      }
      assert i + 1 < |sql| ==> rest[1] == sql[i + 1];
      i := i + 1;
    }
  }

  /** The split at everything that is no identifier character, empty pieces left out. */
  method Split(t: string) returns (words: seq<string>)
    ensures words == Words(t)
  {
    words := [];
    var i := 0;
    while i < |t|
      invariant i <= |t| && words + Words(t[i..]) == Words(t)
    {
      var rest := t[i..];
      if !Ident(t[i]) {
        assert rest[1..] == t[i + 1..];
        i := i + 1;
      } else {
        var n := RunLength(rest);
        assert n > 0 && rest[n..] == t[i + n..];
        WordsStep(words, rest);
        words := words + [Lower(rest[..n])];
        i := i + n;
      }
    }
    assert t[|t|..] == "";
  }

  lemma {:induction false} WordsStep(words: seq<string>, rest: string)
    requires rest != "" && Ident(rest[0])
    ensures words + Words(rest) == (words + [Lower(rest[..RunLength(rest)])]) + Words(rest[RunLength(rest)..])
  {
  }

  // ---------- words are maximal runs ----------

  /** `t[i..j]` is a run of identifier characters that no identifier character adjoins. */
  predicate MaximalRun(t: string, i: nat, j: nat) {
    && i < j <= |t| && (forall k :: i <= k < j ==> Ident(t[k]))
    && (i > 0 ==> !Ident(t[i - 1])) && (j < |t| ==> !Ident(t[j]))
  }

  lemma {:induction false} RunLengthExact(t: string)
    ensures forall k :: 0 <= k < RunLength(t) ==> Ident(t[k])
    ensures RunLength(t) < |t| ==> !Ident(t[RunLength(t)])
  {
    if t != "" && Ident(t[0]) {
      RunLengthExact(t[1..]);
    }
  }

  lemma {:induction false} RunsInside(t: string, n: nat, i: nat, j: nat)
    requires n <= |t| && (n == 0 || n == |t| || !Ident(t[n - 1]) || !Ident(t[n]))
    requires MaximalRun(t[n..], i, j)
    ensures MaximalRun(t, n + i, n + j) && t[n + i..n + j] == t[n..][i..j]
  {
    if i == 0 && n > 0 {
      assert Ident(t[n..][0]);
    }
    forall k | n + i <= k < n + j
      ensures Ident(t[k])
    {
      assert Ident(t[n..][k - n]);
    }
  }

  lemma {:induction false} RunsBehind(t: string, n: nat, i: nat, j: nat)
    requires n <= i && MaximalRun(t, i, j)
    requires n == 0 || n == |t| || !Ident(t[n - 1]) || !Ident(t[n])
    ensures MaximalRun(t[n..], i - n, j - n) && t[n..][i - n..j - n] == t[i..j]
  {
  }

  /** A word is in the list exactly if some maximal run spells it: `deleted_flag` gives no
      `delete`. */
  lemma {:induction false} WordsAreMaximalRuns(t: string, w: string)
    ensures w in Words(t) <==> exists i: nat, j: nat :: MaximalRun(t, i, j) && w == Lower(t[i..j])
    decreases |t|
  {
    if t != "" {
      RunLengthExact(t);
      var n := if Ident(t[0]) then RunLength(t) else 1;
      WordsAreMaximalRuns(t[n..], w);
      if Ident(t[0]) {
        assert MaximalRun(t, 0, n);
      }
      if i: nat, j: nat :| MaximalRun(t[n..], i, j) && w == Lower(t[n..][i..j]) {
        RunsInside(t, n, i, j);
      }
      if i: nat, j: nat :| MaximalRun(t, i, j) && w == Lower(t[i..j]) {
        if i < n {
          FirstRun(t, i, j);
        } else {
          RunsBehind(t, n, i, j);
        }
      }
    }
  }

  /** A maximal run that starts in the first run is the first run. */
  lemma {:induction false} FirstRun(t: string, i: nat, j: nat)
    requires t != "" && MaximalRun(t, i, j) && i < (if Ident(t[0]) then RunLength(t) else 1)
    ensures Ident(t[0]) && i == 0 && j == RunLength(t)
  {
    RunLengthExact(t);
    if i > 0 {
      assert false;
    }
    if j > RunLength(t) {
      assert false;
    }
  }

  // ---------- what a text is made of ----------

  /** A character of code; a literal with its escaped body; a line comment without its end;
      a block comment; and, at the end of a text, an unclosed literal or block comment. */
  datatype Seg = Code(c: char) | Literal(q: char, body: string) | Line(text: string) | Block(text: string)
               | OpenLiteral(q: char, body: string) | OpenBlock(text: string)

  function Printed(g: Seg): (s: string)
    ensures s != ""
  {
    match g
    case Code(c) => [c]
    case Literal(q, body) => [q] + body + [q]
    case Line(text) => if text == "" then "#" else text
    case Block(text) => "/*" + text + "*/"
    case OpenLiteral(q, body) => [q] + body
    case OpenBlock(text) => "/*" + text
  }

  function Print(segs: seq<Seg>): string {
    if segs == [] then "" else Printed(segs[0]) + Print(segs[1..])
  }

  /** The body of a literal: a backslash takes the next character with it, the quote itself
      is doubled. */
  predicate Escaped(body: string, q: char)
    decreases |body|
  {
    body == ""
    || (if body[0] == '\\' then |body| > 1 && Escaped(body[2..], q)
        else if body[0] == q then |body| > 1 && body[1] == q && Escaped(body[2..], q)
        else Escaped(body[1..], q))
  }

  /** A body that is never closed: escaped, but for a backslash at the very end. */
  predicate NeverClosed(body: string, q: char)
    decreases |body|
  {
    body == "" || body == "\\"
    || (if body[0] == '\\' then NeverClosed(body[2..], q)
        else if body[0] == q then |body| > 1 && body[1] == q && NeverClosed(body[2..], q)
        else NeverClosed(body[1..], q))
  }

  predicate NoClose(text: string) {
    text == "" || (!Starts(text, '*', '/') && NoClose(text[1..]))
  }

  predicate NoFeed(text: string) {
    text == "" || (text[0] != '\n' && NoFeed(text[1..]))
  }

  /** `g` is read back as itself with `rest` behind it. */
  predicate Fits(g: Seg, rest: string) {
    match g
    case Code(c) => !Quote(c) && !LineComment([c] + rest) && !Starts([c] + rest, '/', '*')
    case Literal(q, body) => Quote(q) && Escaped(body, q) && (rest == "" || rest[0] != q)
    case Line(text) => LineComment(text) && NoFeed(text) && (rest == "" || rest[0] == '\n')
    case Block(text) => NoClose(text)
    case OpenLiteral(q, body) => Quote(q) && NeverClosed(body, q) && rest == ""
    case OpenBlock(text) => NoClose(text) && rest == ""
  }

  predicate WellFormed(segs: seq<Seg>) {
    segs == [] || (Fits(segs[0], Print(segs[1..])) && WellFormed(segs[1..]))
  }

  /** What a segment leaves in the blanked text. */
  function Shown(segs: seq<Seg>): string {
    if segs == [] then ""
    else match segs[0]
      case Code(c) => [c] + Shown(segs[1..])
      case Line(_) => Shown(segs[1..])
      case _ => [' '] + Shown(segs[1..])
  }

  lemma {:induction false} LiteralEnds(body: string, q: char, rest: string)
    requires Quote(q) && Escaped(body, q) && (rest == "" || rest[0] != q)
    ensures AfterLiteral(body + [q] + rest, q) == rest
    decreases |body|
  {
    var s := body + [q] + rest;
    if body == "" {
      assert s == [q] + rest;
      assert s[1..] == rest;
    } else if body[0] == '\\' || body[0] == q {
      LiteralEnds(body[2..], q, rest);
      assert s[2..] == body[2..] + [q] + rest;
    } else {
      LiteralEnds(body[1..], q, rest);
      assert s[1..] == body[1..] + [q] + rest;
    }
  }

  lemma {:induction false} LiteralRunsOut(body: string, q: char)
    requires Quote(q) && NeverClosed(body, q)
    ensures AfterLiteral(body, q) == ""
    decreases |body|
  {
    if body != "" && body != "\\" {
      if body[0] == '\\' {
        Single(body);
        LiteralRunsOut(body[2..], q);
      } else if body[0] == q {
        LiteralRunsOut(body[2..], q);
      } else {
        LiteralRunsOut(body[1..], q);
      }
    }
  }

  lemma {:induction false} Single(body: string)
    requires body != "" && body[0] == '\\' && body != "\\"
    ensures |body| > 1
  {
    assert body == [body[0]] + body[1..];
  }

  lemma {:induction false} LineEnds(text: string, rest: string)
    requires NoFeed(text) && (rest == "" || rest[0] == '\n')
    ensures AfterLine(text + rest) == rest
  {
    if text == "" {
      assert text + rest == rest;
    } else {
      LineEnds(text[1..], rest);
      assert (text + rest)[1..] == text[1..] + rest;
    }
  }

  lemma {:induction false} BlockEnds(text: string, rest: string)
    requires NoClose(text)
    ensures AfterBlock(text + "*/" + rest) == rest
  {
    var s := text + "*/" + rest;
    if text == "" {
      assert s[2..] == rest;
    } else {
      BlockEnds(text[1..], rest);
      assert s[1..] == text[1..] + "*/" + rest;
      if |text| == 1 {
        assert s[1] == '*';
      } else {
        assert s[1] == text[1];
      }
    }
  }

  lemma {:induction false} BlockRunsOut(text: string)
    requires NoClose(text)
    ensures AfterBlock(text) == ""
  {
    if text != "" {
      BlockRunsOut(text[1..]);
    }
  }

  lemma {:induction false} LiteralRead(q: char, body: string, rest: string)
    requires Fits(Literal(q, body), rest)
    ensures Blanked([q] + body + [q] + rest) == [' '] + Blanked(rest)
  {
    LiteralEnds(body, q, rest);
    assert ([q] + body + [q] + rest)[1..] == body + [q] + rest;
  }

  lemma {:induction false} LineRead(text: string, rest: string)
    requires Fits(Line(text), rest)
    ensures Blanked(text + rest) == Blanked(rest)
  {
    LineEnds(text, rest);
    LineStarts(text, rest);
  }

  lemma {:induction false} BlockRead(text: string, rest: string)
    requires Fits(Block(text), rest)
    ensures Blanked("/*" + text + "*/" + rest) == [' '] + Blanked(rest)
  {
    BlockEnds(text, rest);
    assert ("/*" + text + "*/" + rest)[2..] == text + "*/" + rest;
  }

  lemma {:induction false} OpenRead(q: char, body: string)
    requires Fits(OpenLiteral(q, body), "")
    ensures Blanked([q] + body) == [' '] + Blanked("")
  {
    LiteralRunsOut(body, q);
    assert ([q] + body)[1..] == body;
  }

  lemma {:induction false} OpenBlockRead(text: string)
    requires Fits(OpenBlock(text), "")
    ensures Blanked("/*" + text) == [' '] + Blanked("")
  {
    BlockRunsOut(text);
    assert ("/*" + text)[2..] == text;
  }

  lemma {:induction false} CodeRead(c: char, rest: string)
    requires Fits(Code(c), rest)
    ensures Blanked([c] + rest) == [c] + Blanked(rest)
  {
    assert ([c] + rest)[1..] == rest;
  }

  /** Reading one segment off the front. */
  lemma {:induction false} SegRead(g: Seg, rest: string)
    requires Fits(g, rest)
    ensures Blanked(Printed(g) + rest) ==
      match g
      case Code(c) => [c] + Blanked(rest)
      case Line(_) => Blanked(rest)
      case _ => [' '] + Blanked(rest)
  {
    match g
    case Code(c) => CodeRead(c, rest);
    case Literal(q, body) => LiteralRead(q, body, rest);
    case Line(text) => LineRead(text, rest);
    case Block(text) => BlockRead(text, rest);
    case OpenLiteral(q, body) =>
      OpenRead(q, body);
      assert Printed(g) + "" == Printed(g);
    case OpenBlock(text) =>
      OpenBlockRead(text);
      assert Printed(g) + "" == Printed(g);
  }

  lemma {:induction false} LineStarts(text: string, rest: string)
    requires LineComment(text)
    ensures LineComment(text + rest) && !Quote((text + rest)[0])
  {
  }

  /** Blanking is exact: a text printed from well-formed segments keeps its code, and its
      literals and block comments become one blank each. */
  lemma {:induction false} BlankingExact(segs: seq<Seg>)
    requires WellFormed(segs)
    ensures Blanked(Print(segs)) == Shown(segs)
  {
    if segs != [] {
      BlankingExact(segs[1..]);
      SegRead(segs[0], Print(segs[1..]));
    }
  }

  // ---------- every text is made of segments ----------

  /** `body`, closed or not, is the literal that `s` is inside of. */
  predicate Cut(s: string, q: char, body: string, closed: bool) {
    if closed then s == body + [q] + AfterLiteral(s, q) && Escaped(body, q)
                   && (AfterLiteral(s, q) == "" || AfterLiteral(s, q)[0] != q)
    else s == body && NeverClosed(body, q) && AfterLiteral(s, q) == ""
  }

  lemma {:induction false} CutTwo(s: string, q: char, body: string, closed: bool)
    requires Quote(q) && |s| > 1 && (s[0] == '\\' || (s[0] == q && s[1] == q)) && Cut(s[2..], q, body, closed)
    ensures Cut(s, q, [s[0], s[1]] + body, closed)
  {
    var b, rest := [s[0], s[1]] + body, AfterLiteral(s[2..], q);
    assert b[2..] == body && s == [s[0], s[1]] + s[2..];
    assert closed ==> [s[0], s[1]] + (body + [q] + rest) == b + [q] + rest;
  }

  lemma {:induction false} CutOne(s: string, q: char, body: string, closed: bool)
    requires Quote(q) && s != "" && s[0] != '\\' && s[0] != q && Cut(s[1..], q, body, closed)
    ensures Cut(s, q, [s[0]] + body, closed)
  {
    var b, rest := [s[0]] + body, AfterLiteral(s[1..], q);
    assert b[1..] == body && s == [s[0]] + s[1..];
    assert closed ==> [s[0]] + (body + [q] + rest) == b + [q] + rest;
  }

  lemma {:induction false} LiteralCut(s: string, q: char) returns (body: string, closed: bool)
    requires Quote(q)
    ensures Cut(s, q, body, closed)
    decreases |s|
  {
    if s == "" || s == "\\" {
      body, closed := s, false;
    } else if s[0] == '\\' || (s[0] == q && |s| > 1 && s[1] == q) {
      if s[0] == '\\' {
        Single(s);
      }
      body, closed := LiteralCut(s[2..], q);
      CutTwo(s, q, body, closed);
      body := [s[0], s[1]] + body;
    } else if s[0] == q {
      body, closed := "", true;
      assert s == [q] + s[1..];
      assert "" + [q] + s[1..] == [q] + s[1..];
    } else {
      body, closed := LiteralCut(s[1..], q);
      CutOne(s, q, body, closed);
      body := [s[0]] + body;
    }
  }

  lemma {:induction false} LineCut(s: string) returns (text: string)
    ensures s == text + AfterLine(s) && NoFeed(text) && (AfterLine(s) == "" || AfterLine(s)[0] == '\n')
  {
    if s == "" || s[0] == '\n' {
      text := "";
    } else {
      var t := LineCut(s[1..]);
      text := [s[0]] + t;
      assert s == [s[0]] + s[1..];
    }
  }

  lemma {:induction false} BlockCut(s: string) returns (text: string, closed: bool)
    ensures if closed then s == text + "*/" + AfterBlock(s) && NoClose(text)
            else s == text && NoClose(text) && AfterBlock(s) == ""
  {
    if s == "" {
      text, closed := "", false;
    } else if Starts(s, '*', '/') {
      text, closed := "", true;
      assert s == "*/" + s[2..];
    } else {
      var t;
      t, closed := BlockCut(s[1..]);
      text := [s[0]] + t;
      assert text[1..] == t && s == [s[0]] + s[1..];
      if closed {
        assert s == text + "*/" + AfterBlock(s);
        assert t != "" ==> s[1] == t[0];
      }
    }
  }

  lemma {:induction false} LineHead(s: string, text: string, rest: string)
    requires LineComment(s) && s == text + rest && (rest == "" || rest[0] == '\n')
    ensures LineComment(text)
  {
    if text == "" {
      assert false;
    }
    assert |text| == 1 && rest != "" ==> s[1] == rest[0];
  }

  /** The next segment of a text. */
  lemma {:induction false} SegCut(s: string) returns (g: Seg, rest: string)
    requires s != ""
    ensures s == Printed(g) + rest && |rest| < |s| && Fits(g, rest)
  {
    if Quote(s[0]) {
      var body, closed := LiteralCut(s[1..], s[0]);
      assert s == [s[0]] + s[1..];
      rest := AfterLiteral(s[1..], s[0]);
      g := if closed then Literal(s[0], body) else OpenLiteral(s[0], body);
      assert closed ==> [s[0]] + (body + [s[0]] + rest) == [s[0]] + body + [s[0]] + rest;
    } else if LineComment(s) {
      LineShortens(s);
      var text := LineCut(s);
      rest := AfterLine(s);
      LineHead(s, text, rest);
      g := Line(text);
    } else if Starts(s, '/', '*') {
      var text, closed := BlockCut(s[2..]);
      assert s == "/*" + s[2..];
      rest := AfterBlock(s[2..]);
      g := if closed then Block(text) else OpenBlock(text);
      assert closed ==> "/*" + (text + "*/" + rest) == "/*" + text + "*/" + rest;
    } else {
      g, rest := Code(s[0]), s[1..];
      assert s == [s[0]] + s[1..];
    }
  }

  /** Every text is printed from well-formed segments. */
  lemma {:induction false} EveryTextHasSegments(s: string) returns (segs: seq<Seg>)
    ensures Print(segs) == s && WellFormed(segs)
    decreases |s|
  {
    segs := [];
    if s != "" {
      var g, rest := SegCut(s);
      var more := EveryTextHasSegments(rest);
      segs := [g] + more;
      assert segs[1..] == more;
    }
  }

  // ---------- literals do not matter ----------

  lemma {:induction false} BodySwapped(segs: seq<Seg>, k: nat, body: string)
    requires k < |segs| && segs[k].Literal? && WellFormed(segs) && Escaped(body, segs[k].q)
    ensures var other := segs[k := Literal(segs[k].q, body)];
      && WellFormed(other) && Shown(other) == Shown(segs)
      && Print(segs) != "" && Print(other) != "" && Print(other)[0] == Print(segs)[0]
  {
    var other := segs[k := Literal(segs[k].q, body)];
    if k == 0 {
      assert other[1..] == segs[1..];
    } else {
      assert other[1..] == segs[1..][k - 1 := Literal(segs[k].q, body)];
      BodySwapped(segs[1..], k - 1, body);
      FitsStays(segs[0], Print(segs[1..]), Print(other[1..]));
    }
  }

  /** Whether a segment fits depends on no more than the next character. */
  lemma {:induction false} FitsStays(g: Seg, rest: string, rest2: string)
    requires Fits(g, rest) && rest != "" && rest2 != "" && rest2[0] == rest[0]
    ensures Fits(g, rest2)
  {
  }

  /** Replacing the body of a literal by any other properly escaped body changes no token. */
  lemma {:induction false} LiteralBodiesDoNotMatter(segs: seq<Seg>, k: nat, body: string)
    requires k < |segs| && segs[k].Literal? && WellFormed(segs) && Escaped(body, segs[k].q)
    ensures Words(Blanked(Print(segs[k := Literal(segs[k].q, body)]))) == Words(Blanked(Print(segs)))
  {
    BodySwapped(segs, k, body);
    BlankingExact(segs);
    BlankingExact(segs[k := Literal(segs[k].q, body)]);
  }

  // ---------- the red line ----------

  const DML := ["insert", "update", "delete", "drop", "truncate", "alter", "create", "merge", "grant", "revoke"]

  /** The first part of `redline_verdict`: no SQL, or whether the line holds. */
  method RedlineVerdict(sql: string) returns (ok: Option<bool>)
    ensures ok == Verdict(Words(Blanked(sql)))
  {
    var toks := SqlTokens(sql);
    if toks == [] { return None; }
    var clean := true;
    for i := 0 to |DML|
      invariant clean <==> forall k :: 0 <= k < i ==> DML[k] !in toks
    {
      if DML[i] in toks { clean := false; }
    }
    if toks[0] != "select" && toks[0] != "with" { clean := false; }
    return Some(clean);
  }

  function Verdict(toks: seq<string>): Option<bool> {
    if toks == [] then None
    else Some((toks[0] == "select" || toks[0] == "with") && forall k :: 0 <= k < |DML| ==> DML[k] !in toks)
  }

  /** The first identifier of a text. */
  predicate FirstWord(t: string, i: nat, j: nat) {
    MaximalRun(t, i, j) && forall k :: 0 <= k < i ==> !Ident(t[k])
  }

  lemma {:induction false} FirstWordFirst(t: string)
    ensures Words(t) == [] <==> forall k :: 0 <= k < |t| ==> !Ident(t[k])
    ensures forall i: nat, j: nat :: FirstWord(t, i, j) ==> Words(t) != [] && Words(t)[0] == Lower(t[i..j])
  {
    if t != "" {
      RunLengthExact(t);
      if Ident(t[0]) {
        forall i: nat, j: nat | FirstWord(t, i, j)
          ensures Words(t)[0] == Lower(t[i..j])
        {
          FirstRun(t, i, j);
        }
      } else {
        FirstWordFirst(t[1..]);
        assert forall k :: 0 < k < |t| ==> t[k] == t[1..][k - 1];
        forall i: nat, j: nat | FirstWord(t, i, j)
          ensures Words(t) != [] && Words(t)[0] == Lower(t[i..j])
        {
          assert FirstWord(t[1..], i - 1, j - 1);
          SliceBehind(t, i, j);
        }
      }
    }
  }

  lemma {:induction false} SliceBehind(t: string, i: nat, j: nat)
    requires 1 <= i <= j <= |t|
    ensures t[1..][i - 1..j - 1] == t[i..j]
  {
  }

  /** There is no verdict exactly if the code has no identifier. */
  lemma {:induction false} NoVerdictExactly(segs: seq<Seg>)
    requires WellFormed(segs)
    ensures Verdict(Words(Blanked(Print(segs)))) == None <==> forall k :: 0 <= k < |Shown(segs)| ==> !Ident(Shown(segs)[k])
  {
    BlankingExact(segs);
    FirstWordFirst(Shown(segs));
  }

  /** The verdict in terms of what the text is made of: it holds exactly if the first word
      of the code is `select` or `with` and no word of the code, in any case, is a word of
      change; literals and comments have no say. */
  lemma {:induction false} RedlineExactly(segs: seq<Seg>, i: nat, j: nat)
    requires WellFormed(segs) && FirstWord(Shown(segs), i, j)
    ensures var code := Shown(segs);
      Verdict(Words(Blanked(Print(segs)))) ==
        Some((Lower(code[i..j]) == "select" || Lower(code[i..j]) == "with")
             && forall k :: 0 <= k < |DML| ==> !CodeHas(code, DML[k]))
  {
    var code := Shown(segs);
    BlankingExact(segs);
    FirstWordFirst(code);
    forall k | 0 <= k < |DML|
      ensures DML[k] in Words(code) <==> CodeHas(code, DML[k])
    {
      WordsAreMaximalRuns(code, DML[k]);
    }
  }

  /** Some maximal run of identifier characters spells the word, in any case. */
  ghost predicate CodeHas(code: string, word: string) {
    exists a: nat, b: nat :: MaximalRun(code, a, b) && word == Lower(code[a..b])
  }

  // ---------- the verdict, letter by letter ----------

  /** ASCII letters and digits, and the underscore. */
  predicate WordChar(c: char) {
    var u := c as int;
    0x30 <= u <= 0x39 || 0x41 <= u <= 0x5A || 0x61 <= u <= 0x7A || u == 0x5F
  }

  /** A whole word stands at `i..j`. */
  predicate WholeWord(t: string, i: nat, j: nat) {
    && i < j <= |t| && (forall k :: i <= k < j ==> WordChar(t[k]))
    && (i > 0 ==> !WordChar(t[i - 1])) && (j < |t| ==> !WordChar(t[j]))
  }

  /** The letters `i..j` are those of `word`, in any case. */
  predicate Spells(t: string, i: nat, j: nat, word: string) {
    && i <= j <= |t| && j - i == |word|
    && forall k :: 0 <= k < |word| ==>
         t[i + k] == word[k] || (0x41 <= t[i + k] as int <= 0x5A && t[i + k] as int + 32 == word[k] as int)
  }

  predicate HasWord(t: string, word: string) {
    exists i, j :: 0 <= i < j <= |t| && WholeWord(t, i, j) && Spells(t, i, j, word)
  }

  predicate Small(word: string) { forall k :: 0 <= k < |word| ==> 'a' <= word[k] <= 'z' }

  lemma {:induction false} WordCharIs(c: char)
    ensures Ident(c) <==> WordChar(c)
  {
  }

  lemma {:induction false} WholeWordIs(t: string, i: nat, j: nat)
    ensures MaximalRun(t, i, j) <==> WholeWord(t, i, j)
  {
    forall c
      ensures Ident(c) <==> WordChar(c)
    {
      WordCharIs(c);
    }
  }

  lemma {:induction false} LowerIs(w: string, k: nat)
    requires k < |w|
    ensures |Lower(w)| == |w| && Lower(w)[k] == if 'A' <= w[k] <= 'Z' then (w[k] as int + 32) as char else w[k]
  {
    if k > 0 {
      LowerIs(w[1..], k - 1);
    }
  }

  lemma {:induction false} LowerLength(w: string)
    ensures |Lower(w)| == |w|
  {
    if w != "" {
      LowerLength(w[1..]);
    }
  }

  lemma {:induction false} SpellsIs(t: string, i: nat, j: nat, word: string)
    requires i <= j <= |t| && Small(word)
    ensures Lower(t[i..j]) == word <==> Spells(t, i, j, word)
  {
    var w := t[i..j];
    LowerLength(w);
    if |w| == |word| {
      forall k | 0 <= k < |word|
        ensures Lower(w)[k] == word[k] <==> t[i + k] == word[k] || (0x41 <= t[i + k] as int <= 0x5A && t[i + k] as int + 32 == word[k] as int)
      {
        LowerIs(w, k);
      }
    }
  }

  lemma {:induction false} HasWordIs(code: string, word: string)
    requires Small(word)
    ensures CodeHas(code, word) <==> HasWord(code, word)
  {
    forall i: nat, j: nat | i <= j <= |code|
      ensures Lower(code[i..j]) == word <==> Spells(code, i, j, word)
      ensures MaximalRun(code, i, j) <==> WholeWord(code, i, j)
    {
      SpellsIs(code, i, j, word);
      WholeWordIs(code, i, j);
    }
  }

  predicate HasChange(code: string) {
    || HasWord(code, "insert") || HasWord(code, "update") || HasWord(code, "delete") || HasWord(code, "drop")
    || HasWord(code, "truncate") || HasWord(code, "alter") || HasWord(code, "create") || HasWord(code, "merge")
    || HasWord(code, "grant") || HasWord(code, "revoke")
  }

  lemma {:induction false} ChangeIs(code: string)
    ensures (forall k :: 0 <= k < |DML| ==> !CodeHas(code, DML[k])) <==> !HasChange(code)
  {
    forall k | 0 <= k < |DML|
      ensures CodeHas(code, DML[k]) <==> HasWord(code, DML[k])
    {
      HasWordIs(code, DML[k]);
    }
    assert DML[0] == "insert" && DML[1] == "update" && DML[2] == "delete" && DML[3] == "drop" && DML[4] == "truncate";
    assert DML[5] == "alter" && DML[6] == "create" && DML[7] == "merge" && DML[8] == "grant" && DML[9] == "revoke";
  }

  /** The verdict in full: the first word is `select` or `with`, in any case, and none of the
      ten words of change is a word of the code. */
  lemma {:induction false} RedlineInFull(segs: seq<Seg>, i: nat, j: nat)
    requires WellFormed(segs) && WholeWord(Shown(segs), i, j) && forall k :: 0 <= k < i ==> !WordChar(Shown(segs)[k])
    ensures var code := Shown(segs);
      Verdict(Words(Blanked(Print(segs)))) ==
        Some((Spells(code, i, j, "select") || Spells(code, i, j, "with")) && !HasChange(code))
  {
    RedlineOf(segs, Shown(segs), i, j);
  }

  lemma {:induction false} RedlineOf(segs: seq<Seg>, code: string, i: nat, j: nat)
    requires WellFormed(segs) && code == Shown(segs) && WholeWord(code, i, j) && forall k :: 0 <= k < i ==> !WordChar(code[k])
    ensures Verdict(Words(Blanked(Print(segs)))) ==
        Some((Spells(code, i, j, "select") || Spells(code, i, j, "with")) && !HasChange(code))
  {
    FirstWordIs(code, i, j);
    RedlineExactly(segs, i, j);
    ChangeIs(code);
    ReadsIs(code, i, j);
  }

  lemma {:induction false} ReadsIs(code: string, i: nat, j: nat)
    requires i <= j <= |code|
    ensures Lower(code[i..j]) == "select" || Lower(code[i..j]) == "with" <==> Spells(code, i, j, "select") || Spells(code, i, j, "with")
  {
    SpellsIs(code, i, j, "select");
    SpellsIs(code, i, j, "with");
  }

  lemma {:induction false} FirstWordIs(code: string, i: nat, j: nat)
    requires WholeWord(code, i, j) && forall k :: 0 <= k < i ==> !WordChar(code[k])
    ensures FirstWord(code, i, j)
  {
    WholeWordIs(code, i, j);
    forall k | 0 <= k < i
      ensures !Ident(code[k])
    {
      WordCharIs(code[k]);
    }
  }
}
