/** Python strings: whitespace, stripping, splitting into lines, and the visible
    characters ("ink") of a text. */
module PyText {

  predicate IsSpace(c: char) {
    var u := c as int;
    || 9 <= u <= 13 || 0x1C <= u <= 0x20 || u == 0x85 || u == 0xA0 || u == 0x1680
    || 0x2000 <= u <= 0x200A || u == 0x2028 || u == 0x2029 || u == 0x202F
    || u == 0x205F || u == 0x3000
  }

  function LStrip(s: string): (r: string)
    ensures |r| <= |s|
  {
    if s != "" && IsSpace(s[0]) then LStrip(s[1..]) else s
  }

  function RStrip(s: string): (r: string)
    ensures |r| <= |s|
  {
    if s != "" && IsSpace(s[|s| - 1]) then RStrip(s[..|s| - 1]) else s
  }

  /** `s.strip()`. */
  function Strip(s: string): (r: string)
    ensures |r| <= |s|
  {
    RStrip(LStrip(s))
  }

  /** The characters of `s` other than whitespace, in order. */
  function Ink(s: string): string {
    if s == "" then "" else if IsSpace(s[0]) then Ink(s[1..]) else [s[0]] + Ink(s[1..])
  }

  predicate Blank(s: string) {
    Ink(s) == ""
  }

  /** Concatenation; written so that an empty left part leaves the right one itself. */
  function Cat<T>(a: seq<T>, b: seq<T>): (r: seq<T>)
    ensures |r| == |a| + |b|
  {
    if a == [] then b else a + b
  }

  function Concat(parts: seq<string>): string {
    if parts == [] then "" else parts[0] + Concat(parts[1..])
  }

  /** `'\n'.join(lines)`. */
  function Join(lines: seq<string>): string {
    if lines == [] then "" else if |lines| == 1 then lines[0] else lines[0] + "\n" + Join(lines[1..])
  }

  function InkAll(parts: seq<string>): string {
    if parts == [] then "" else Ink(parts[0]) + InkAll(parts[1..])
  }

  lemma {:induction false} InkAppend(s: string, t: string)
    ensures Ink(s + t) == Ink(s) + Ink(t)
  {
    if s == "" {
      assert s + t == t;
    } else {
      assert (s + t)[1..] == s[1..] + t;
      InkAppend(s[1..], t);
    }
  }

  lemma {:induction false} InkLStrip(s: string)
    ensures Ink(LStrip(s)) == Ink(s)
  {
    if s != "" && IsSpace(s[0]) {
      InkLStrip(s[1..]);
    }
  }

  lemma {:induction false} InkRStrip(s: string)
    ensures Ink(RStrip(s)) == Ink(s)
    decreases |s|
  {
    if s != "" && IsSpace(s[|s| - 1]) {
      InkRStrip(s[..|s| - 1]);
      assert s == s[..|s| - 1] + [s[|s| - 1]];
      InkAppend(s[..|s| - 1], [s[|s| - 1]]);
      assert Ink([s[|s| - 1]]) == "";
    }
  }

  /** Stripping removes no ink. */
  lemma {:induction false} InkStrip(s: string)
    ensures Ink(Strip(s)) == Ink(s)
  {
    InkLStrip(s);
    InkRStrip(LStrip(s));
  }

  lemma {:induction false} StripEmpty(s: string)
    ensures Strip(s) == "" <==> Blank(s)
  {
    InkStrip(s);
    var r := LStrip(s);
    LStripHead(s);
    if r != "" {
      RStripKeeps(r);
    }
  }

  lemma {:induction false} LStripHead(s: string)
    ensures LStrip(s) != "" ==> !IsSpace(LStrip(s)[0])
  {
    if s != "" && IsSpace(s[0]) {
      LStripHead(s[1..]);
    }
  }

  lemma {:induction false} RStripKeeps(s: string)
    requires s != "" && !IsSpace(s[0])
    ensures RStrip(s) != "" && RStrip(s)[0] == s[0]
    decreases |s|
  {
    if IsSpace(s[|s| - 1]) {
      RStripKeeps(s[..|s| - 1]);
    }
  }

  lemma {:induction false} InkAllAppend(a: seq<string>, b: seq<string>)
    ensures InkAll(a + b) == InkAll(a) + InkAll(b)
  {
    if a == [] {
      assert a + b == b;
    } else {
      assert (a + b)[1..] == a[1..] + b;
      InkAllAppend(a[1..], b);
    }
  }

  lemma {:induction false} InkJoin(lines: seq<string>)
    ensures Ink(Join(lines)) == InkAll(lines)
  {
    if |lines| == 1 {
      assert InkAll(lines[1..]) == "";
    } else if |lines| > 1 {
      InkJoin(lines[1..]);
      InkAppend(lines[0] + "\n", Join(lines[1..]));
      InkAppend(lines[0], "\n");
    }
  }

  /** The length of `Join`: one more than the characters, less one. */
  function Weight(lines: seq<string>): nat {
    if lines == [] then 0 else |lines[0]| + 1 + Weight(lines[1..])
  }

  lemma {:induction false} JoinWeight(lines: seq<string>)
    requires lines != []
    ensures |Join(lines)| + 1 == Weight(lines)
  {
    if |lines| > 1 {
      JoinWeight(lines[1..]);
    }
  }

  lemma {:induction false} WeightAppend(lines: seq<string>, line: string)
    ensures Weight(lines + [line]) == Weight(lines) + |line| + 1
  {
    if lines == [] {
      assert ([] + [line])[1..] == [];
    } else {
      assert (lines + [line])[1..] == lines[1..] + [line];
      WeightAppend(lines[1..], line);
    }
  }

  lemma {:induction false} JoinAppend(lines: seq<string>, line: string)
    requires lines != []
    ensures Join(lines + [line]) == Join(lines) + "\n" + line
  {
    assert (lines + [line])[1..] == lines[1..] + [line];
    if |lines| > 1 {
      JoinAppend(lines[1..], line);
    }
  }

  /** Splitting at the first line feed: `text.split('\n')`. */
  function FirstFeed(s: string): (i: nat)
    ensures i <= |s|
    ensures i < |s| ==> s[i] == '\n'
  {
    if s == "" || s[0] == '\n' then 0 else 1 + FirstFeed(s[1..])
  }

  function Lines(s: string): (r: seq<string>)
    ensures r != []
    decreases |s|
  {
    var i := FirstFeed(s);
    if i == |s| then [s] else [s[..i]] + Lines(s[i + 1..])
  }

  lemma {:induction false} InkLines(s: string)
    ensures InkAll(Lines(s)) == Ink(s)
    decreases |s|
  {
    var i := FirstFeed(s);
    if i == |s| {
      assert InkAll([s][1..]) == "";
    } else {
      InkLines(s[i + 1..]);
      assert Lines(s)[1..] == Lines(s[i + 1..]);
      assert s == s[..i] + (['\n'] + s[i + 1..]);
      InkAppend(s[..i], ['\n'] + s[i + 1..]);
      InkAppend(['\n'], s[i + 1..]);
      assert Ink(['\n']) == "";
    }
  }
}
