/** A table whose second chunk is its header alone
    (tools/embed_service.py:1193-1228). */
module ChunkHeader {
  import opened PyText
  import opened Chunker
  import opened ChunkProperties
  import opened ChunkConservation

  function Spaces(n: nat): (s: string)
    ensures |s| == n && forall k :: 0 <= k < n ==> s[k] == ' '
  {
    if n == 0 then "" else " " + Spaces(n - 1)
  }

  predicate OneLine(s: string) {
    forall k :: 0 <= k < |s| ==> s[k] != '\n'
  }

  // ---------- lines ----------

  lemma {:induction false} FeedAt(line: string, rest: string)
    requires OneLine(line)
    ensures FirstFeed(line + "\n" + rest) == |line|
  {
    if line == "" {
      assert "" + "\n" + rest == "\n" + rest;
    } else {
      FeedAt(line[1..], rest);
      assert (line + "\n" + rest)[1..] == line[1..] + "\n" + rest;
    }
  }

  lemma {:induction false} LinesFirst(line: string, rest: string)
    requires OneLine(line)
    ensures Lines(line + "\n" + rest) == [line] + Lines(rest)
  {
    FeedAt(line, rest);
    var s := line + "\n" + rest;
    assert s[..|line|] == line && s[|line| + 1..] == rest;
  }

  lemma {:induction false} NoFeed(line: string)
    requires OneLine(line)
    ensures FirstFeed(line) == |line|
  {
    if line != "" {
      NoFeed(line[1..]);
    }
  }

  lemma {:induction false} LinesOne(line: string)
    requires OneLine(line)
    ensures Lines(line) == [line]
  {
    NoFeed(line);
  }

  /** Not empty, with no white space at either end. */
  predicate Trimmed(s: string) {
    s != "" && !IsSpace(s[0]) && !IsSpace(s[|s| - 1])
  }

  lemma {:induction false} TrimmedStays(s: string)
    requires Trimmed(s)
    ensures Strip(s) == s && RStrip(s) == s && !Blank(s)
  {
    StripEmpty(s);
  }

  // ---------- a table of three lines ----------

  /** The text of a table with one row. */
  function TableText(head: string, dashes: string, row: string): string {
    head + "\n" + (dashes + "\n" + row)
  }

  predicate TableLines(head: string, dashes: string, row: string, sep: Separator) {
    && OneLine(head) && OneLine(dashes) && OneLine(row) && Trimmed(head) && Trimmed(dashes) && Trimmed(row)
    && head[0] == '|' && sep(dashes)
  }

  lemma {:induction false} SecondIsSeparator(head: string, dashes: string, row: string, sep: Separator)
    requires TableLines(head, dashes, row, sep)
    ensures SeparatorRow([head, dashes, row], 0, sep) == Some(1)
  {
    var lines := [head, dashes, row];
    assert HeaderAt(lines, 1, sep);
    assert SeparatorRow(lines, 1, sep) == Some(1);
  }

  lemma {:induction false} OneRowTable(head: string, dashes: string, row: string, sep: Separator)
    requires TableLines(head, dashes, row, sep)
    ensures TableSplit(TableText(head, dashes, row), sep) == Some(Table(head + "\n" + dashes, [row]))
    ensures Strip(TableText(head, dashes, row)) == TableText(head, dashes, row) != ""
  {
    ThreeLines(head, dashes, row);
    SecondIsSeparator(head, dashes, row, sep);
    SplitAt(TableText(head, dashes, row), [head, dashes, row], 1, sep);
    FirstTwo(head, dashes, row);
    OneRow(row);
    assert Trimmed(TableText(head, dashes, row));
    TrimmedStays(TableText(head, dashes, row));
  }

  lemma {:induction false} ThreeLines(head: string, dashes: string, row: string)
    requires OneLine(head) && OneLine(dashes) && OneLine(row)
    ensures Lines(TableText(head, dashes, row)) == [head, dashes, row]
  {
    LinesFirst(head, dashes + "\n" + row);
    LinesFirst(dashes, row);
    LinesOne(row);
  }

  lemma {:induction false} SplitAt(text: string, lines: seq<string>, i: nat, sep: Separator)
    requires Lines(text) == lines && SeparatorRow(lines, 0, sep) == Some(i) && i < |lines|
    ensures TableSplit(text, sep) == Some(Table(Join(lines[..i + 1]), NonBlank(lines[i + 1..])))
  {
  }

  lemma {:induction false} FirstTwo(head: string, dashes: string, row: string)
    ensures [head, dashes, row][..2] == [head, dashes] && [head, dashes, row][2..] == [row]
    ensures Join([head, dashes]) == head + "\n" + dashes
  {
    assert [head, dashes][1..] == [dashes];
    assert Join([dashes]) == dashes;
  }

  lemma {:induction false} OneRow(row: string)
    requires Trimmed(row)
    ensures NonBlank([row]) == [row]
  {
    TrimmedStays(row);
    assert [row][1..] == [];
    assert [row] + NonBlank([]) == [row];
  }

  // ---------- a row that is mostly blank ----------

  lemma {:induction false} NoEnd(s: string)
    requires forall k :: 0 <= k < |s| ==> !SentenceEnd(s[k])
    ensures FirstEnd(s) == |s|
  {
    if s != "" {
      NoEnd(s[1..]);
    }
  }

  /** Without a sentence end, a text is cut into slices of the cap. */
  lemma {:induction false} CutOnly(s: string, cap: nat)
    requires cap > 0 && |s| > 2 * cap && forall k :: 0 <= k < |s| ==> !SentenceEnd(s[k])
    ensures |SplitLong(s, cap)| >= 2 && SplitLong(s, cap)[1] == s[cap..2 * cap]
  {
    NoEnd(s);
    assert Sentences(s) == [s];
    assert s[cap..][..cap] == s[cap..2 * cap];
    var rest := Cuts(s[cap..], cap);
    assert rest != [] && rest[0] == s[cap..][..cap];
    assert Cuts(s, cap) == [s[..cap]] + rest && Cuts(s, cap)[1] == rest[0];
    FirstParts(s, cap);
  }

  lemma {:induction false} FirstParts(s: string, cap: nat)
    requires cap > 0 && Sentences(s) == [s]
    ensures SplitLong(s, cap) == Cat(Cuts(s, cap), Parts(LastCut(s, cap), [], cap))
  {
    assert [s][1..] == [];
    assert "" + LastCut(s, cap) == LastCut(s, cap);
  }

  lemma {:induction false} SpacesBlank(s: string)
    requires forall k :: 0 <= k < |s| ==> s[k] == ' '
    ensures Blank(s)
  {
    if s != "" {
      SpacesBlank(s[1..]);
    }
  }

  function WideRow(budget: nat): string { "|" + Spaces(2 * budget) + "|" }

  lemma {:induction false} WideRowBodies(budget: nat)
    requires budget > 0
    ensures var bodies := Bodies([], [WideRow(budget)], budget);
      |bodies| >= 2 && Blank(bodies[1])
  {
    var row := WideRow(budget);
    forall k | 0 <= k < |row|
      ensures !SentenceEnd(row[k])
    {
      assert row[k] == '|' || row[k] == ' ';
    }
    CutOnly(row, budget);
    SpacesBlank(row[budget..2 * budget]);
    OverlongOnly(row, budget);
  }

  lemma {:induction false} OverlongOnly(row: string, budget: nat)
    requires |row| + 1 > budget > 0
    ensures Bodies([], [row], budget) == Cat(SplitLong(row, budget), [])
  {
    assert [row][1..] == [];
  }

  // ---------- the header alone ----------

  lemma {:induction false} SecondChunk(head: string, dashes: string, budget: nat, cfg: Config, sep: Separator)
    requires TableLines(head, dashes, WideRow(budget), sep)
    requires budget == cfg.tc - |head| - |dashes| - 2 && budget >= MIN_ROW_BUDGET
    ensures var b := Block(TableText(head, dashes, WideRow(budget)), "", None);
      && AsTable(b, cfg, sep) == Some(Table(head + "\n" + dashes, [WideRow(budget)]))
      && var pieces := TablePieces(AsTable(b, cfg, sep).value, "", None, cfg);
         |pieces| >= 2 && |ChunkOf(pieces[1])| == 1 && ChunkOf(pieces[1])[0].text == head + "\n" + dashes
  {
    var row, prefix := WideRow(budget), head + "\n" + dashes;
    OneRowTable(head, dashes, row, sep);
    WideRowBodies(budget);
    assert Trimmed(prefix);
    BlankSecond(Table(prefix, [row]), budget, cfg);
  }

  /** A table whose second body is blank. */
  lemma {:induction false} BlankSecond(t: Table, budget: nat, cfg: Config)
    requires t.rows != [] && Trimmed(t.prefix) && budget == Budget(t, cfg)
    requires |Bodies([], t.rows, budget)| >= 2 && Blank(Bodies([], t.rows, budget)[1])
    ensures var pieces := TablePieces(t, "", None, cfg);
      |pieces| >= 2 && |ChunkOf(pieces[1])| == 1 && ChunkOf(pieces[1])[0].text == t.prefix
  {
    var bodies := Bodies([], t.rows, budget);
    BodyPiecesLength(t.prefix, bodies, "", None, true);
    BodyPieceText(t.prefix, bodies, "", None, true, 1);
    BodyChunk(TablePieces(t, "", None, cfg)[1], t.prefix, bodies[1]);
    TrimmedStays(t.prefix);
  }

  lemma {:induction false} WideRowFits(budget: nat)
    ensures Trimmed(WideRow(budget)) && OneLine(WideRow(budget))
  {
  }

  const HEAD := "|a|"
  const DASHES := "|-|"

  lemma {:induction false} HeaderFits()
    ensures Trimmed(HEAD) && OneLine(HEAD) && Trimmed(DASHES) && OneLine(DASHES) && HEAD[0] == '|'
  {
  }

  /** With a target of at least 58 characters there is a table of one row whose second chunk
      is its header and nothing else. */
  lemma {:induction false} HeaderAlone(cfg: Config, sep: Separator) returns (b: Block)
    requires cfg.tc >= 58 && sep(DASHES)
    ensures AsTable(b, cfg, sep).Some? && |AsTable(b, cfg, sep).value.rows| == 1
    ensures var t := AsTable(b, cfg, sep).value;
      var pieces := TablePieces(t, b.heading, b.page, cfg);
      && t.prefix == HEAD + "\n" + DASHES
      && |pieces| >= 2 && |ChunkOf(pieces[1])| == 1 && ChunkOf(pieces[1])[0].text == t.prefix
  {
    HeaderFits();
    b := AloneFor(HEAD, DASHES, cfg, sep);
  }

  lemma {:induction false} AloneFor(head: string, dashes: string, cfg: Config, sep: Separator) returns (b: Block)
    requires Trimmed(head) && OneLine(head) && Trimmed(dashes) && OneLine(dashes) && head[0] == '|' && sep(dashes)
    requires cfg.tc >= |head| + |dashes| + 2 + MIN_ROW_BUDGET
    ensures AsTable(b, cfg, sep).Some? && |AsTable(b, cfg, sep).value.rows| == 1
    ensures var t := AsTable(b, cfg, sep).value;
      var pieces := TablePieces(t, b.heading, b.page, cfg);
      && t.prefix == head + "\n" + dashes
      && |pieces| >= 2 && |ChunkOf(pieces[1])| == 1 && ChunkOf(pieces[1])[0].text == t.prefix
  {
    var budget := cfg.tc - |head| - |dashes| - 2;
    WideRowFits(budget);
    SecondChunk(head, dashes, budget, cfg, sep);
    b := Block(TableText(head, dashes, WideRow(budget)), "", None);
  }
}
