/** Which blocks are packed as tables, said of their lines
    (tools/embed_service.py:1186-1202 and 1236-1245). */
module ChunkTables {
  import opened PyText
  import opened Chunker
  import opened ChunkProperties
  import opened ChunkConservation
  import opened ChunkHeader

  // ---------- lines ----------

  ghost predicate AllOneLine(lines: seq<string>) {
    forall k :: 0 <= k < |lines| ==> OneLine(lines[k])
  }

  /** Splitting a text into lines finds the lines it is joined of. */
  lemma {:induction false} LinesOfJoin(lines: seq<string>)
    requires lines != [] && AllOneLine(lines)
    ensures Lines(Join(lines)) == lines
  {
    assert OneLine(lines[0]);
    if |lines| == 1 {
      LinesOne(lines[0]);
    } else {
      assert forall k :: 0 <= k < |lines[1..]| ==> lines[1..][k] == lines[k + 1];
      LinesOfJoin(lines[1..]);
      LinesFirst(lines[0], Join(lines[1..]));
    }
  }

  // ---------- where the header ends ----------

  /** The line starts with a bar, white space aside. */
  ghost predicate BarFirst(line: string) {
    exists k :: 0 <= k < |line| && line[k] == '|' && forall j :: 0 <= j < k ==> IsSpace(line[j])
  }

  /** Line `i`, one of the second to the sixth, is a separator row under a bar row. */
  ghost predicate SeparatorAt(lines: seq<string>, i: nat, sep: Separator) {
    1 <= i < 6 && i < |lines| && sep(lines[i]) && BarFirst(lines[i - 1])
  }

  ghost predicate FirstSeparator(lines: seq<string>, i: nat, sep: Separator) {
    SeparatorAt(lines, i, sep) && forall j :: 0 <= j < i ==> !SeparatorAt(lines, j, sep)
  }

  lemma {:induction false} BarFirstIs(line: string)
    ensures LStrip(line) != "" && LStrip(line)[0] == '|' <==> BarFirst(line)
  {
    if line != "" && IsSpace(line[0]) {
      BarFirstIs(line[1..]);
      BarShift(line);
    } else if BarFirst(line) {
      var k: nat :| k < |line| && line[k] == '|' && forall j :: 0 <= j < k ==> IsSpace(line[j]);
    }
  }

  lemma {:induction false} BarShift(line: string)
    requires line != "" && IsSpace(line[0])
    ensures BarFirst(line[1..]) <==> BarFirst(line)
  {
    if BarFirst(line[1..]) {
      var k: nat :| k < |line[1..]| && line[1..][k] == '|' && forall j :: 0 <= j < k ==> IsSpace(line[1..][j]);
      assert line[k + 1] == '|' && forall j :: 0 < j < k + 1 ==> line[j] == line[1..][j - 1];
    }
    if BarFirst(line) {
      var k: nat :| k < |line| && line[k] == '|' && forall j :: 0 <= j < k ==> IsSpace(line[j]);
      assert line[1..][k - 1] == '|' && forall j :: 0 <= j < k - 1 ==> line[1..][j] == line[j + 1];
    }
  }

  lemma {:induction false} SeparatorIs(lines: seq<string>, i: nat, sep: Separator)
    requires i < |lines| && i < 6
    ensures HeaderAt(lines, i, sep) <==> SeparatorAt(lines, i, sep)
  {
    if i > 0 {
      BarFirstIs(lines[i - 1]);
    }
  }

  lemma {:induction false} SeparatorRowIs(lines: seq<string>, i: nat, sep: Separator)
    requires i <= |lines| && forall j :: 0 <= j < i ==> !SeparatorAt(lines, j, sep)
    ensures match SeparatorRow(lines, i, sep)
      case None => forall j: nat :: !SeparatorAt(lines, j, sep)
      case Some(k) => FirstSeparator(lines, k, sep)
    decreases |lines| - i
  {
    if i < |lines| && i < 6 {
      SeparatorIs(lines, i, sep);
      if !HeaderAt(lines, i, sep) {
        SeparatorRowIs(lines, i + 1, sep);
      }
    }
  }

  // ---------- rows ----------

  predicate BlankLine(line: string) { forall k :: 0 <= k < |line| ==> IsSpace(line[k]) }

  /** `rows` are the lines that are not blank, in order. */
  predicate Picked(lines: seq<string>, rows: seq<string>) {
    if lines == [] then rows == []
    else if BlankLine(lines[0]) then Picked(lines[1..], rows)
    else rows != [] && rows[0] == lines[0] && Picked(lines[1..], rows[1..])
  }

  lemma {:induction false} InkNone(s: string)
    ensures Blank(s) <==> BlankLine(s)
  {
    if s != "" {
      InkNone(s[1..]);
      assert forall k :: 0 < k < |s| ==> s[k] == s[1..][k - 1];
      assert forall k :: 0 <= k < |s[1..]| ==> s[1..][k] == s[k + 1];
    }
  }

  lemma {:induction false} NonBlankPicks(lines: seq<string>)
    ensures Picked(lines, NonBlank(lines))
  {
    if lines != [] {
      StripEmpty(lines[0]);
      InkNone(lines[0]);
      NonBlankPicks(lines[1..]);
      if !BlankLine(lines[0]) {
        assert NonBlank(lines)[1..] == NonBlank(lines[1..]);
      }
    }
  }

  // ---------- tables ----------

  /** A header that ends with line `i` leaves room for fifty characters under it. */
  predicate LeavesRoom(lines: seq<string>, i: nat, cfg: Config)
    requires i < |lines|
  {
    |Join(lines[..i + 1])| + 1 + 50 <= cfg.tc
  }

  /** Which blocks are tables. The block whose stripped text has these lines is packed as a
      table exactly if a separator row stands under a bar row among its first six lines, and
      the lines up to the first one leave room under them. They are then the header, and the
      lines behind that are not blank are the rows. */
  lemma {:induction false} TableExactly(b: Block, cfg: Config, sep: Separator, lines: seq<string>, i: nat)
    requires lines != [] && AllOneLine(lines) && Join(lines) == Strip(b.text) != ""
    ensures (forall j: nat :: !SeparatorAt(lines, j, sep)) ==> AsTable(b, cfg, sep) == None
    ensures FirstSeparator(lines, i, sep) ==> (AsTable(b, cfg, sep).Some? <==> LeavesRoom(lines, i, cfg))
    ensures FirstSeparator(lines, i, sep) && LeavesRoom(lines, i, cfg) ==>
      var t := AsTable(b, cfg, sep).value; t.prefix == Join(lines[..i + 1]) && Picked(lines[i + 1..], t.rows)
  {
    LinesOfJoin(lines);
    SeparatorRowIs(lines, 0, sep);
    var r := SeparatorRow(lines, 0, sep);
    if r.Some? {
      NonBlankPicks(lines[r.value + 1..]);
      if FirstSeparator(lines, i, sep) {
        OneFirst(lines, i, r.value, sep);
      }
    }
  }

  lemma {:induction false} OneFirst(lines: seq<string>, i: nat, j: nat, sep: Separator)
    requires FirstSeparator(lines, i, sep) && FirstSeparator(lines, j, sep)
    ensures i == j
  {
    assert j < i ==> !SeparatorAt(lines, j, sep);
    assert i < j ==> !SeparatorAt(lines, i, sep);
  }

  /** Every chunk of such a block starts with the lines of its header. */
  lemma {:induction false} ChunksRepeatHeader(b: Block, cfg: Config, sep: Separator, lines: seq<string>, i: nat, k: nat)
    requires lines != [] && AllOneLine(lines) && Join(lines) == Strip(b.text) != ""
    requires FirstSeparator(lines, i, sep) && LeavesRoom(lines, i, cfg)
    ensures AsTable(b, cfg, sep).Some?
    ensures var pieces := TablePieces(AsTable(b, cfg, sep).value, b.heading, b.page, cfg);
      k < |pieces| ==> |ChunkOf(pieces[k])| == 1 && RStrip(Join(lines[..i + 1])) <= ChunkOf(pieces[k])[0].text
  {
    TableExactly(b, cfg, sep, lines, i);
    if k < |TablePieces(AsTable(b, cfg, sep).value, b.heading, b.page, cfg)| {
      var body := HeaderOnEveryChunk(b, cfg, sep, k);
    }
  }
}
