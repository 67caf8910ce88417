/** How a document is cut up: where long text is split, what goes into one window, into one
    table chunk, and which blocks are packed together (tools/embed_service.py:1096-1251). */
module ChunkPacking {
  import opened PyText
  import opened Chunker
  import opened ChunkProperties
  import opened ChunkConservation
  import opened ChunkOverlap

  // ---------- sizes ----------

  /** Tokens are characters over 1.6, rounded up. */
  lemma {:induction false} TokensExact(n: nat)
    ensures 8 * EstTokens(n) >= 5 * n && 8 * EstTokens(n) < 5 * n + 8
  {
  }

  /** The sizes asked for, in characters, with the overlap at most 120 tokens and both at most
      480 together; at least one token, no negative overlap. */
  lemma {:induction false} SizesExact(targetTokens: int, overlap: int)
    ensures var cfg := Sizes(targetTokens, overlap);
      exists o: nat, t: nat ::
        && o == (if overlap < 0 then 0 else if overlap > 120 then 120 else overlap)
        && t == (if targetTokens < 1 then 1 else if targetTokens > 480 - o then 480 - o else targetTokens)
        && 5 * cfg.tc <= 8 * t < 5 * cfg.tc + 5 && 5 * cfg.oc <= 8 * o < 5 * cfg.oc + 5
  {
    var o: nat := if overlap < 0 then 0 else if overlap > 120 then 120 else overlap;
    var t: nat := if targetTokens < 1 then 1 else if targetTokens > 480 - o then 480 - o else targetTokens;
    assert Sizes(targetTokens, overlap).tc == ToChars(t) && Sizes(targetTokens, overlap).oc == ToChars(o);
  }

  // ---------- where long text is split ----------

  predicate IsEnd(c: char) {
    c == '。' || c == '！' || c == '？' || c == '；' || c == '!' || c == '?' || c == ';' || c == '\n'
  }

  /** The first sentence of `s` is its first `n` characters: up to a sentence end, or all. */
  predicate FirstSentence(s: string, n: nat) {
    0 < n <= |s| && (n == |s| || IsEnd(s[n - 1])) && forall k :: 0 <= k < n - 1 ==> !IsEnd(s[k])
  }

  /** Part `p` may end before `rest`: at the cap, or at a sentence end behind which the next
      sentence does not fit. */
  ghost predicate EndsRightly(p: string, rest: string, cap: nat) {
    || rest == "" || |p| == cap
    || (p != "" && IsEnd(p[|p| - 1]) && forall n :: FirstSentence(rest, n) ==> |p| + n > cap)
  }

  /** The parts are the text, one after the other, but for white space at its end. */
  ghost predicate WellCut(parts: seq<string>, text: string, cap: nat)
    decreases |parts|
  {
    if parts == [] then Strip(text) == ""
    else
      && 0 < |parts[0]| <= cap && parts[0] <= text
      && EndsRightly(parts[0], text[|parts[0]|..], cap)
      && WellCut(parts[1..], text[|parts[0]|..], cap)
  }

  /** All but the last end with their only sentence end, the last has none. */
  predicate AreSentences(pieces: seq<string>) {
    if pieces == [] then false
    else if |pieces| == 1 then forall k :: 0 <= k < |pieces[0]| ==> !IsEnd(pieces[0][k])
    else FirstSentence(pieces[0], |pieces[0]|) && IsEnd(pieces[0][|pieces[0]| - 1]) && AreSentences(pieces[1..])
  }

  lemma {:induction false} EndIs(c: char)
    ensures SentenceEnd(c) <==> IsEnd(c)
  {
  }

  lemma {:induction false} FirstEndIs(s: string)
    ensures var i := FirstEnd(s); i < |s| ==> IsEnd(s[i])
    ensures forall k :: 0 <= k < FirstEnd(s) ==> !IsEnd(s[k])
  {
    if s != "" {
      EndIs(s[0]);
      if !SentenceEnd(s[0]) {
        FirstEndIs(s[1..]);
        assert forall k :: 0 < k < |s| ==> s[k] == s[1..][k - 1];
      }
    }
  }

  lemma {:induction false} SentencesAre(s: string)
    ensures AreSentences(Sentences(s)) && Concat(Sentences(s)) == s
    decreases |s|
  {
    var i := FirstEnd(s);
    FirstEndIs(s);
    if i == |s| {
      assert Concat([s][1..]) == "";
    } else {
      SentencesAre(s[i + 1..]);
      var pieces := Sentences(s);
      assert pieces[1..] == Sentences(s[i + 1..]);
      assert s == s[..i + 1] + s[i + 1..];
    }
  }

  lemma {:induction false} CutsAre(p: string, cap: nat)
    requires cap > 0
    ensures p != "" ==> LastCut(p, cap) != "" && LastCut(p, cap)[|LastCut(p, cap)| - 1] == p[|p| - 1]
    decreases |p|
  {
    if |p| > cap {
      CutsAre(p[cap..], cap);
    }
  }

  /** A sentence with its cuts before `more`, the parts of what follows them. */
  lemma {:induction false} CutsWell(p: string, rest: string, more: seq<string>, cap: nat)
    requires cap > 0 && WellCut(more, LastCut(p, cap) + rest, cap)
    ensures WellCut(Cat(Cuts(p, cap), more), p + rest, cap)
    decreases |p|
  {
    if |p| > cap {
      CutsWell(p[cap..], rest, more, cap);
      var parts := Cat(Cuts(p, cap), more);
      assert parts[1..] == Cat(Cuts(p[cap..], cap), more);
      assert (p + rest)[cap..] == p[cap..] + rest;
    }
  }

  /** The buffer `_split_long` keeps: nothing, or a stretch up to a sentence end. */
  predicate Pending(buf: string, cap: nat) {
    |buf| <= cap && (buf != "" ==> IsEnd(buf[|buf| - 1]))
  }

  lemma {:induction false} OneFirstSentence(s: string, m: nat, n: nat)
    requires FirstSentence(s, m) && FirstSentence(s, n)
    ensures m == n
  {
  }

  /** A flushed buffer ends rightly: what follows is the sentence that did not fit. */
  lemma {:induction false} FlushRight(buf: string, pieces: seq<string>, cap: nat)
    requires buf != "" && Pending(buf, cap) && AreSentences(pieces) && |buf| + |pieces[0]| > cap
    ensures EndsRightly(buf, Concat(pieces), cap)
  {
    var rest := Concat(pieces);
    assert forall k :: 0 <= k < |pieces[0]| ==> rest[k] == pieces[0][k];
    if |pieces| == 1 {
      assert Concat(pieces[1..]) == "";
    }
    assert pieces[0] != "" && FirstSentence(rest, |pieces[0]|);
    forall n | FirstSentence(rest, n)
      ensures |buf| + n > cap
    {
      OneFirstSentence(rest, n, |pieces[0]|);
    }
  }

  lemma {:induction false} BufferFirst(buf: string, more: seq<string>, rest: string, cap: nat)
    requires 0 < |buf| <= cap && EndsRightly(buf, rest, cap) && WellCut(more, rest, cap)
    ensures WellCut([buf] + more, buf + rest, cap)
  {
    assert ([buf] + more)[1..] == more && (buf + rest)[|buf|..] == rest;
  }

  lemma {:induction false} StripNone()
    ensures Strip("") == ""
  {
  }

  lemma {:induction false} LastPart(buf: string, cap: nat)
    requires cap > 0 && |buf| <= cap
    ensures WellCut(Parts(buf, [], cap), buf, cap)
  {
    if Strip(buf) != "" {
      StripNone();
      assert [buf][1..] == [] && buf[|buf|..] == "";
    }
  }

  /** The rest of the loop, one sentence at a time. */
  lemma {:induction false} PartsWell(buf: string, pieces: seq<string>, cap: nat)
    requires cap > 0 && Pending(buf, cap) && AreSentences(pieces)
    ensures WellCut(Parts(buf, pieces, cap), buf + Concat(pieces), cap)
    decreases |pieces|, 1
  {
    var p, rest := pieces[0], Concat(pieces[1..]);
    if Overfull(buf, p, cap) {
      FlushRight(buf, pieces, cap);
      SentenceWell("", pieces, cap);
      assert "" + LastCut(p, cap) == LastCut(p, cap) && "" + (p + rest) == p + rest;
      BufferFirst(buf, Cat(Cuts(p, cap), Parts(LastCut(p, cap), pieces[1..], cap)), p + rest, cap);
    } else {
      SentenceWell(buf, pieces, cap);
    }
  }

  /** One sentence put behind a buffer it fits with, or an empty one. */
  lemma {:induction false} SentenceWell(buf: string, pieces: seq<string>, cap: nat)
    requires cap > 0 && Pending(buf, cap) && AreSentences(pieces) && !Overfull(buf, pieces[0], cap)
    ensures WellCut(Cat(Cuts(pieces[0], cap), Parts(buf + LastCut(pieces[0], cap), pieces[1..], cap)),
                    buf + (pieces[0] + Concat(pieces[1..])), cap)
    decreases |pieces|, 0
  {
    var p, rest := pieces[0], Concat(pieces[1..]);
    var last := LastCut(p, cap);
    StillPending(buf, pieces, cap);
    RestWell(buf + last, pieces, cap);
    if buf == "" {
      assert "" + last == last && "" + (p + rest) == p + rest;
      CutsWell(p, rest, Parts(last, pieces[1..], cap), cap);
    } else {
      assert (buf + p) + rest == buf + (p + rest);
    }
  }

  lemma {:induction false} StillPending(buf: string, pieces: seq<string>, cap: nat)
    requires cap > 0 && Pending(buf, cap) && AreSentences(pieces) && !Overfull(buf, pieces[0], cap)
    ensures var more := buf + LastCut(pieces[0], cap);
      |more| <= cap && (|pieces| > 1 ==> more != "" && IsEnd(more[|more| - 1]))
    ensures buf != "" ==> Cuts(pieces[0], cap) == [] && LastCut(pieces[0], cap) == pieces[0]
  {
    CutsAre(pieces[0], cap);
  }

  lemma {:induction false} RestWell(buf: string, pieces: seq<string>, cap: nat)
    requires cap > 0 && AreSentences(pieces) && |buf| <= cap
    requires |pieces| > 1 ==> buf != "" && IsEnd(buf[|buf| - 1])
    ensures WellCut(Parts(buf, pieces[1..], cap), buf + Concat(pieces[1..]), cap)
    decreases |pieces| - 1, 2
  {
    if |pieces| == 1 {
      LastPart(buf, cap);
      assert buf + "" == buf;
    } else {
      PartsWell(buf, pieces[1..], cap);
    }
  }

  /** Long text is cut behind sentences as full as the cap allows, or at the cap. */
  lemma {:induction false} SplitLongCuts(text: string, cap: nat)
    requires cap > 0
    ensures WellCut(SplitLong(text, cap), text, cap)
  {
    SentencesAre(text);
    PartsWell("", Sentences(text), cap);
    assert "" + text == text;
  }

  // ---------- the windows of a run of units ----------

  /** The text of a window: overlap and units, each on a line of its own. */
  lemma {:induction false} WindowText(w: Window)
    ensures BufText(w) == Join((if w.overlap == "" then [] else [w.overlap]) + Texts(w.added))
  {
    var ts := Texts(w.added);
    if w.overlap == "" {
      assert [] + ts == ts;
    } else {
      assert ([w.overlap] + ts)[1..] == ts;
      if w.added != [] {
        assert |ts| >= 1;
      }
    }
  }

  /** How much of a buffer of `n` characters is kept as an overlap of `oc`: a start before the
      buffer's counts from its end, as slices do. */
  function OverlapLength(n: nat, oc: nat): nat {
    if oc <= n then oc else if oc - n < n then oc - n else n
  }

  /** Window `next` starts because its first unit does not fit behind window `w`, and with the
      end of it. */
  predicate Starts(w: Window, next: Window, cfg: Config) {
    && next.added != [] && |BufText(w)| + 1 + |next.added[0].text| > cfg.tc
    && |next.overlap| == OverlapLength(|BufText(w)|, cfg.oc) && EndsWith(BufText(w), next.overlap)
  }

  /** Every unit after the first fitted behind those before it. */
  predicate Filled(w: Window, cfg: Config) {
    forall k :: 1 <= k < |w.added| ==> |BufText(w.(added := w.added[..k]))| + 1 + |w.added[k].text| <= cfg.tc
  }

  /** The windows take the units one after the other, as many as fit. */
  predicate WellPacked(ws: seq<Window>, units: seq<Unit>, cfg: Config)
    decreases |ws|
  {
    if ws == [] then units == []
    else
      && ws[0].added != [] && ws[0].added <= units && Filled(ws[0], cfg)
      && (|ws| > 1 ==> Starts(ws[0], ws[1], cfg))
      && WellPacked(ws[1..], units[|ws[0].added|..], cfg)
  }

  lemma {:induction false} TailIs(buf: string, oc: nat)
    ensures |Tail(buf, oc)| == OverlapLength(|buf|, oc) && EndsWith(buf, Tail(buf, oc))
  {
  }

  lemma {:induction false} FilledMore(w: Window, u: Unit, cfg: Config)
    requires Filled(w, cfg) && (w.added == [] || |BufText(w)| + 1 + |u.text| <= cfg.tc)
    ensures Filled(w.(added := w.added + [u]), cfg)
  {
    var more := w.(added := w.added + [u]);
    forall k | 1 <= k < |more.added|
      ensures |BufText(more.(added := more.added[..k]))| + 1 + |more.added[k].text| <= cfg.tc
    {
      if k < |w.added| {
        assert more.added[..k] == w.added[..k];
      } else {
        assert more.added[..k] == w.added;
        assert more.(added := more.added[..k]) == w;
      }
    }
  }

  lemma {:induction false} WindowsPacked(w: Window, units: seq<Unit>, cfg: Config)
    requires UnitsFit(units, cfg.cap) && w.added != [] && BufText(w) != "" && Filled(w, cfg)
    ensures var ws := Windows(w, units, cfg);
      ws != [] && ws[0].overlap == w.overlap && w.added <= ws[0].added && WellPacked(ws, w.added + units, cfg)
    decreases |units|, 0
  {
    if units == [] {
      assert w.added + units == w.added;
      assert (w.added + units)[|w.added|..] == [] && [w][1..] == [];
    } else if Flushes(w, units[0], cfg) {
      FlushPacked(w, units[0], units[1..], cfg);
      assert [units[0]] + units[1..] == units;
    } else {
      var u := units[0];
      FilledMore(w, u, cfg);
      BufTextMore(w, u);
      WindowsPacked(w.(added := w.added + [u]), units[1..], cfg);
      assert (w.added + [u]) + units[1..] == w.added + units;
    }
  }

  lemma {:induction false} FlushPacked(w: Window, u: Unit, rest: seq<Unit>, cfg: Config)
    requires UnitsFit([u] + rest, cfg.cap) && w.added != [] && BufText(w) != "" && Filled(w, cfg) && Flushes(w, u, cfg)
    ensures var ws := [w] + Windows(Window(Tail(BufText(w), cfg.oc), [u]), rest, cfg);
      WellPacked(ws, w.added + ([u] + rest), cfg)
    decreases |rest|, 1
  {
    var next := Window(Tail(BufText(w), cfg.oc), [u]);
    TailIs(BufText(w), cfg.oc);
    assert ([u] + rest)[0] == u && 0 < |u.text|;
    assert forall k :: 0 <= k < |rest| ==> rest[k] == ([u] + rest)[k + 1];
    FirstUnitShows(next.overlap, u);
    WindowsPacked(next, rest, cfg);
    var more := Windows(next, rest, cfg);
    assert ([w] + more)[1..] == more;
    assert (w.added + ([u] + rest))[|w.added|..] == [u] + rest;
  }

  lemma {:induction false} FirstUnitShows(overlap: string, u: Unit)
    requires u.text != ""
    ensures BufText(Window(overlap, [u])) != ""
  {
    var w := Window(overlap, []);
    BufTextMore(w, u);
    assert w.(added := w.added + [u]) == Window(overlap, [u]);
  }

  /** The windows of a run of units: filled one after the other, each starting with the end
      of the one before. */
  lemma {:induction false} RunPacked(units: seq<Unit>, cfg: Config)
    requires UnitsFit(units, cfg.cap)
    ensures WellPacked(Windows(NO_WINDOW, units, cfg), units, cfg)
    ensures units != [] ==> Windows(NO_WINDOW, units, cfg)[0].overlap == ""
  {
    if units != [] {
      var u := units[0];
      assert 0 < |u.text|;
      FirstUnitShows("", u);
      assert NO_WINDOW.(added := NO_WINDOW.added + [u]) == Window("", [u]);
      WindowsPacked(Window("", [u]), units[1..], cfg);
      assert [u] + units[1..] == units;
    }
  }

  // ---------- the bodies of a table ----------

  /** Rows packed together, or one row too long for that. */
  datatype Group = Packed(rows: seq<string>) | Overlong(row: string)

  function RowsOf(groups: seq<Group>): seq<string> {
    if groups == [] then []
    else (match groups[0] case Packed(rows) => rows case Overlong(row) => [row]) + RowsOf(groups[1..])
  }

  function BodiesOf(groups: seq<Group>, budget: int): seq<string> {
    if groups == [] then []
    else
      (match groups[0] case Packed(rows) => [Join(rows)] case Overlong(row) => SplitLong(row, AtLeastOne(budget)))
      + BodiesOf(groups[1..], budget)
  }

  predicate RowFits(row: string, budget: int) { |row| + 1 <= budget }

  predicate GroupFits(g: Group, budget: int) {
    match g
    case Packed(rows) => rows != [] && |Join(rows)| + 1 <= budget && forall k :: 0 <= k < |rows| ==> RowFits(rows[k], budget)
    case Overlong(row) => !RowFits(row, budget)
  }

  /** Packed rows fit together; the row behind them does not fit with them. */
  predicate WellGrouped(groups: seq<Group>, budget: int) {
    groups == [] ||
    (&& GroupFits(groups[0], budget)
     && (groups[0].Packed? && |groups| > 1 && groups[1].Packed? && groups[1].rows != [] ==>
           |Join(groups[0].rows)| + 1 + |groups[1].rows[0]| + 1 > budget)
     && WellGrouped(groups[1..], budget))
  }

  predicate FirstRow(groups: seq<Group>, row: string) {
    groups != [] && match groups[0] case Packed(rows) => rows != [] && rows[0] == row case Overlong(r) => r == row
  }

  lemma {:induction false} BodiesGrouped(cur: seq<string>, rows: seq<string>, budget: int) returns (groups: seq<Group>)
    requires cur != [] ==> Weight(cur) <= budget
    requires forall k :: 0 <= k < |cur| ==> RowFits(cur[k], budget)
    ensures WellGrouped(groups, budget) && RowsOf(groups) == cur + rows && BodiesOf(groups, budget) == Bodies(cur, rows, budget)
    ensures cur + rows != [] ==> FirstRow(groups, (cur + rows)[0])
    decreases |rows|, |cur|
  {
    if rows == [] {
      groups := LastGroup(cur, budget);
      assert cur + rows == cur;
    } else if cur != [] && Weight(cur) + |rows[0]| + 1 > budget {
      var more := BodiesGrouped([], rows, budget);
      assert [] + rows == rows;
      groups := GroupBefore(cur, rows, more, budget);
    } else if |rows[0]| + 1 > budget {
      var more := BodiesGrouped([], rows[1..], budget);
      assert [] + rows[1..] == rows[1..];
      groups := OverlongBefore(cur, rows, more, budget);
    } else {
      WeightAppend(cur, rows[0]);
      groups := BodiesGrouped(cur + [rows[0]], rows[1..], budget);
      assert (cur + [rows[0]]) + rows[1..] == cur + rows;
    }
  }

  lemma {:induction false} LastGroup(cur: seq<string>, budget: int) returns (groups: seq<Group>)
    requires cur != [] ==> Weight(cur) <= budget
    requires forall k :: 0 <= k < |cur| ==> RowFits(cur[k], budget)
    ensures WellGrouped(groups, budget) && RowsOf(groups) == cur && BodiesOf(groups, budget) == Bodies(cur, [], budget)
    ensures cur != [] ==> FirstRow(groups, cur[0])
  {
    groups := [];
    if cur != [] {
      JoinWeight(cur);
      groups := [Packed(cur)];
      assert groups[1..] == [];
    }
  }

  lemma {:induction false} GroupBefore(cur: seq<string>, rows: seq<string>, more: seq<Group>, budget: int)
    returns (groups: seq<Group>)
    requires cur != [] && Weight(cur) <= budget && forall k :: 0 <= k < |cur| ==> RowFits(cur[k], budget)
    requires rows != [] && Weight(cur) + |rows[0]| + 1 > budget
    requires WellGrouped(more, budget) && RowsOf(more) == rows && BodiesOf(more, budget) == Bodies([], rows, budget)
    requires FirstRow(more, rows[0])
    ensures WellGrouped(groups, budget) && RowsOf(groups) == cur + rows && BodiesOf(groups, budget) == Bodies(cur, rows, budget)
    ensures FirstRow(groups, (cur + rows)[0])
  {
    groups := [Packed(cur)] + more;
    JoinWeight(cur);
    assert groups[1..] == more;
  }

  lemma {:induction false} OverlongBefore(cur: seq<string>, rows: seq<string>, more: seq<Group>, budget: int)
    returns (groups: seq<Group>)
    requires cur == [] && rows != [] && |rows[0]| + 1 > budget
    requires WellGrouped(more, budget) && RowsOf(more) == rows[1..] && BodiesOf(more, budget) == Bodies([], rows[1..], budget)
    ensures WellGrouped(groups, budget) && RowsOf(groups) == cur + rows && BodiesOf(groups, budget) == Bodies(cur, rows, budget)
    ensures FirstRow(groups, (cur + rows)[0])
  {
    groups := [Overlong(rows[0])] + more;
    assert groups[1..] == more;
    assert [rows[0]] + rows[1..] == cur + rows;
    CatPlus(SplitLong(rows[0], AtLeastOne(budget)), Bodies([], rows[1..], budget));
  }

  lemma {:induction false} CatPlus<T>(a: seq<T>, b: seq<T>)
    ensures Cat(a, b) == a + b
  {
  }

  /** The chunks of a table: its rows in order, as many to a chunk as the budget allows, a
      row that exceeds it cut by itself. */
  lemma {:induction false} TableGrouped(t: Table, cfg: Config) returns (groups: seq<Group>)
    ensures WellGrouped(groups, Budget(t, cfg)) && RowsOf(groups) == t.rows
    ensures BodiesOf(groups, Budget(t, cfg)) == Bodies([], t.rows, Budget(t, cfg))
  {
    groups := BodiesGrouped([], t.rows, Budget(t, cfg));
    assert [] + t.rows == t.rows;
  }

  // ---------- runs of blocks ----------

  /** A run of prose under one heading is packed together, and what follows for itself: the
      end, another heading, or a table. */
  lemma {:induction false} ProseRun(run: seq<Block>, rest: seq<Block>, cfg: Config, sep: Separator)
    requires cfg.cap > 0 && run != [] && AllProse(run, run[0].heading, cfg, sep)
    requires rest != [] ==> rest[0].heading != run[0].heading || AsTable(rest[0], cfg, sep).Some?
    ensures Pieces(run + rest, cfg, sep) == Cat(ProsePieces(run, run[0].heading, cfg), Pieces(rest, cfg, sep))
  {
    assert (run + rest)[0] == run[0];
    ProseWalked([], run[0].heading, run, rest, cfg, sep);
    assert [] + run == run;
    RestWalked(run, run[0].heading, rest, cfg, sep);
  }

  lemma {:induction false} WalkStep(prose: seq<Block>, heading: string, blocks: seq<Block>, cfg: Config, sep: Separator)
    requires cfg.cap > 0 && blocks != [] && blocks[0].heading == heading && AsTable(blocks[0], cfg, sep) == None
    ensures Walk(prose, heading, blocks, cfg, sep) == Walk(prose + [blocks[0]], heading, blocks[1..], cfg, sep)
  {
  }

  lemma {:induction false} ProseWalked(prose: seq<Block>, heading: string, run: seq<Block>, rest: seq<Block>, cfg: Config, sep: Separator)
    requires cfg.cap > 0 && AllProse(run, heading, cfg, sep)
    ensures Walk(prose, heading, run + rest, cfg, sep) == Walk(prose + run, heading, rest, cfg, sep)
    decreases |run|
  {
    if run == [] {
      assert run + rest == rest && prose + run == prose;
    } else {
      var b, more := run[0], run[1..];
      assert run + rest == [b] + (more + rest) && (run + rest)[1..] == more + rest;
      WalkStep(prose, heading, run + rest, cfg, sep);
      ProseWalked(prose + [b], heading, more, rest, cfg, sep);
      assert (prose + [b]) + more == prose + run;
    }
  }

  lemma {:induction false} NoProse(heading: string, cfg: Config)
    requires cfg.cap > 0
    ensures ProsePieces([], heading, cfg) == []
  {
  }

  lemma {:induction false} CatNone<T>(a: seq<T>)
    ensures Cat(a, []) == a
  {
  }

  /** With nothing pending, the walk under any heading goes on as a new document would. */
  lemma {:induction false} FreshWalk(heading: string, rest: seq<Block>, cfg: Config, sep: Separator)
    requires cfg.cap > 0
    ensures Walk([], heading, rest, cfg, sep) == Pieces(rest, cfg, sep)
  {
    NoProse(heading, cfg);
  }

  lemma {:induction false} RestWalked(run: seq<Block>, heading: string, rest: seq<Block>, cfg: Config, sep: Separator)
    requires cfg.cap > 0 && (rest != [] ==> rest[0].heading != heading || AsTable(rest[0], cfg, sep).Some?)
    ensures Walk(run, heading, rest, cfg, sep) == Cat(ProsePieces(run, heading, cfg), Pieces(rest, cfg, sep))
  {
    if rest == [] {
      CatNone(ProsePieces(run, heading, cfg));
    } else if rest[0].heading == heading {
      NoProse(heading, cfg);
    }
  }

  /** A table is packed by itself. */
  lemma {:induction false} TableRun(b: Block, rest: seq<Block>, cfg: Config, sep: Separator)
    requires cfg.cap > 0 && AsTable(b, cfg, sep).Some?
    ensures Pieces([b] + rest, cfg, sep)
         == Cat(TablePieces(AsTable(b, cfg, sep).value, b.heading, b.page, cfg), Pieces(rest, cfg, sep))
  {
    NoProse(b.heading, cfg);
    assert ([b] + rest)[1..] == rest;
    FreshWalk(b.heading, rest, cfg, sep);
  }
}
