/** Where the text of every chunk comes from: no visible character of a document is lost,
    doubled, moved under another heading or given a wrong page. */
module ChunkConservation {
  import opened PyText
  import opened Chunker
  import opened ChunkProperties

  /** A visible character of the document, with the heading and page of its block. */
  datatype Mark = Mark(c: char, heading: string, page: Option<int>)

  function Tag(ink: string, heading: string, page: Option<int>): (r: seq<Mark>)
    ensures |r| == |ink|
  {
    if ink == "" then [] else [Mark(ink[0], heading, page)] + Tag(ink[1..], heading, page)
  }

  lemma {:induction false} TagAppend(a: string, b: string, heading: string, page: Option<int>)
    ensures Tag(a + b, heading, page) == Cat(Tag(a, heading, page), Tag(b, heading, page))
  {
    if a == "" {
      assert a + b == b;
    } else {
      assert (a + b)[1..] == a[1..] + b;
      TagAppend(a[1..], b, heading, page);
    }
  }

  /** The visible characters of a document, in order. */
  function Visible(blocks: seq<Block>): seq<Mark> {
    if blocks == [] then []
    else Cat(Tag(Ink(blocks[0].text), blocks[0].heading, blocks[0].page), Visible(blocks[1..]))
  }

  function UnitMarks(units: seq<Unit>, heading: string): seq<Mark> {
    if units == [] then []
    else Cat(Tag(Ink(units[0].text), heading, units[0].page), UnitMarks(units[1..], heading))
  }

  lemma {:induction false} CatNothing<T>(a: seq<T>)
    ensures Cat(a, []) == a
  {
  }

  lemma {:induction false} VisibleAppend(a: seq<Block>, b: Block)
    ensures Visible(a + [b]) == Cat(Visible(a), Tag(Ink(b.text), b.heading, b.page))
  {
    if a == [] {
      assert a + [b] == [b] && [b][1..] == [];
      CatNothing(Tag(Ink(b.text), b.heading, b.page));
    } else {
      assert (a + [b])[1..] == a[1..] + [b];
      VisibleAppend(a[1..], b);
      CatAssociative(Tag(Ink(a[0].text), a[0].heading, a[0].page), Visible(a[1..]), Tag(Ink(b.text), b.heading, b.page));
    }
  }

  lemma {:induction false} UnitMarksAppend(a: seq<Unit>, b: seq<Unit>, heading: string)
    ensures UnitMarks(Cat(a, b), heading) == Cat(UnitMarks(a, heading), UnitMarks(b, heading))
  {
    if a != [] {
      assert (a + b)[1..] == Cat(a[1..], b);
      UnitMarksAppend(a[1..], b, heading);
      CatAssociative(Tag(Ink(a[0].text), heading, a[0].page), UnitMarks(a[1..], heading), UnitMarks(b, heading));
    }
  }

  // ---------- what a piece may hold ----------

  predicate Agrees(m: Mark, heading: string, page: Option<int>) {
    m.heading == heading && (page == None || m.page == None || m.page == page)
  }

  predicate AllAgree(ms: seq<Mark>, heading: string, page: Option<int>) {
    ms == [] || (Agrees(ms[0], heading, page) && AllAgree(ms[1..], heading, page))
  }

  function Letters(ms: seq<Mark>): string {
    if ms == [] then "" else [ms[0].c] + Letters(ms[1..])
  }

  /** `ms` is exactly the new text of `p`: same visible characters, all from blocks under
      its heading, and, if it names a page, none from another page. */
  predicate Holds(p: Piece, ms: seq<Mark>) {
    Letters(ms) == Ink(p.added) && AllAgree(ms, p.heading, p.page)
  }

  /** The new text of the pieces, one after the other, is exactly `ms`. */
  predicate Spells(pieces: seq<Piece>, ms: seq<Mark>) {
    if pieces == [] then ms == []
    else
      var n := |Ink(pieces[0].added)|;
      n <= |ms| && Holds(pieces[0], ms[..n]) && Spells(pieces[1..], ms[n..])
  }

  lemma {:induction false} LettersLength(ms: seq<Mark>)
    ensures |Letters(ms)| == |ms|
  {
    if ms != [] {
      LettersLength(ms[1..]);
    }
  }

  lemma {:induction false} SpellsFirst(p: Piece, ms: seq<Mark>, rest: seq<Piece>, more: seq<Mark>)
    requires Holds(p, ms) && Spells(rest, more)
    ensures Spells([p] + rest, Cat(ms, more))
  {
    LettersLength(ms);
    assert ([p] + rest)[1..] == rest;
    assert Cat(ms, more)[..|ms|] == ms && Cat(ms, more)[|ms|..] == more;
  }

  lemma {:induction false} SpellsCat(a: seq<Piece>, ms: seq<Mark>, b: seq<Piece>, more: seq<Mark>)
    requires Spells(a, ms) && Spells(b, more)
    ensures Spells(Cat(a, b), Cat(ms, more))
  {
    if a != [] {
      var n := |Ink(a[0].added)|;
      SpellsCat(a[1..], ms[n..], b, more);
      SpellsFirst(a[0], ms[..n], Cat(a[1..], b), Cat(ms[n..], more));
      assert a + b == [a[0]] + Cat(a[1..], b);
      CatAssociative(ms[..n], ms[n..], more);
      assert Cat(ms[..n], ms[n..]) == ms;
    }
  }

  lemma {:induction false} TagHolds(p: Piece)
    ensures Holds(p, Tag(Ink(p.added), p.heading, p.page))
  {
    TagAgrees(Ink(p.added), p.heading, p.page, p.page);
  }

  lemma {:induction false} TagAgrees(ink: string, heading: string, page: Option<int>, of: Option<int>)
    requires of == None || page == None || page == of
    ensures Letters(Tag(ink, heading, page)) == ink && AllAgree(Tag(ink, heading, page), heading, of)
  {
    if ink != "" {
      var first, rest := Mark(ink[0], heading, page), Tag(ink[1..], heading, page);
      TagAgrees(ink[1..], heading, page, of);
      assert ([first] + rest)[1..] == rest;
      assert [ink[0]] + ink[1..] == ink;
    }
  }

  // ---------- splitting keeps the ink ----------

  lemma {:induction false} SentencesInk(s: string)
    ensures InkAll(Sentences(s)) == Ink(s)
    decreases |s|
  {
    var i := FirstEnd(s);
    if i == |s| {
      assert InkAll([s][1..]) == "";
    } else {
      SentencesInk(s[i + 1..]);
      assert Sentences(s)[1..] == Sentences(s[i + 1..]);
      InkAppend(s[..i + 1], s[i + 1..]);
      assert s == s[..i + 1] + s[i + 1..];
    }
  }

  lemma {:induction false} CutsInk(piece: string, cap: nat)
    requires cap > 0
    ensures InkAll(Cuts(piece, cap)) + Ink(LastCut(piece, cap)) == Ink(piece)
    decreases |piece|
  {
    if |piece| > cap {
      CutsInk(piece[cap..], cap);
      InkAppend(piece[..cap], piece[cap..]);
      assert piece == piece[..cap] + piece[cap..];
      assert Cuts(piece, cap)[1..] == Cuts(piece[cap..], cap);
    }
  }

  lemma {:induction false} InkAllCat(a: seq<string>, b: seq<string>)
    ensures InkAll(Cat(a, b)) == InkAll(a) + InkAll(b)
  {
    if a != [] {
      InkAllAppend(a, b);
    }
  }

  lemma {:induction false} Regroup(a: string, b: string, c: string)
    ensures a + (b + c) == (a + b) + c
  {
  }

  lemma {:induction false} PartsInk(buf: string, pieces: seq<string>, cap: nat)
    requires cap > 0
    ensures InkAll(Parts(buf, pieces, cap)) == Ink(buf) + InkAll(pieces)
    decreases |pieces|
  {
    if pieces == [] {
      StripEmpty(buf);
      assert InkAll([buf][1..]) == "";
    } else {
      var p := pieces[0];
      var b := if Overfull(buf, p, cap) then "" else buf;
      var more := Cat(Cuts(p, cap), Parts(b + LastCut(p, cap), pieces[1..], cap));
      PartsInk(b + LastCut(p, cap), pieces[1..], cap);
      PartsInkStep(b, p, pieces[1..], cap);
      PartsUnfold(buf, pieces, cap);
      PartsJoin(buf, Overfull(buf, p, cap), more, Ink(p) + InkAll(pieces[1..]));
    }
  }

  lemma {:induction false} PartsJoin(buf: string, over: bool, more: seq<string>, ink: string)
    requires InkAll(more) == Ink(if over then "" else buf) + ink
    ensures InkAll(if over then [buf] + more else more) == Ink(buf) + ink
  {
    if over {
      InkAllFirst(buf, more);
      assert "" + ink == ink;
    }
  }

  lemma {:induction false} PartsUnfold(buf: string, pieces: seq<string>, cap: nat)
    requires cap > 0 && pieces != []
    ensures var p := pieces[0];
      var b := if Overfull(buf, p, cap) then "" else buf;
      var more := Cat(Cuts(p, cap), Parts(b + LastCut(p, cap), pieces[1..], cap));
      Parts(buf, pieces, cap) == if Overfull(buf, p, cap) then [buf] + more else more
  {
    var p := pieces[0];
    assert "" + LastCut(p, cap) == LastCut(p, cap);
  }

  lemma {:induction false} InkAllFirst(a: string, rest: seq<string>)
    ensures InkAll([a] + rest) == Ink(a) + InkAll(rest)
  {
    assert ([a] + rest)[1..] == rest;
  }

  lemma {:induction false} PartsInkStep(buf: string, p: string, pieces: seq<string>, cap: nat)
    requires cap > 0 && !Overfull(buf, p, cap)
    requires InkAll(Parts(buf + LastCut(p, cap), pieces, cap)) == Ink(buf + LastCut(p, cap)) + InkAll(pieces)
    ensures InkAll(Cat(Cuts(p, cap), Parts(buf + LastCut(p, cap), pieces, cap))) == Ink(buf) + (Ink(p) + InkAll(pieces))
  {
    var rest := Parts(buf + LastCut(p, cap), pieces, cap);
    CutsInk(p, cap);
    InkAllCat(Cuts(p, cap), rest);
    InkAppend(buf, LastCut(p, cap));
    if Cuts(p, cap) == [] {
      assert InkAll(Cuts(p, cap)) == "";
      assert "" + Ink(LastCut(p, cap)) == Ink(LastCut(p, cap)) == Ink(p);
      Regroup(Ink(buf), Ink(p), InkAll(pieces));
    } else {
      CutsBefore(buf, p, cap);
      assert "" + Ink(LastCut(p, cap)) == Ink(LastCut(p, cap));
      Regroup(InkAll(Cuts(p, cap)), Ink(LastCut(p, cap)), InkAll(pieces));
    }
  }

  /** A sentence is only cut up when nothing is pending. */
  lemma {:induction false} CutsBefore(buf: string, p: string, cap: nat)
    requires cap > 0 && !Overfull(buf, p, cap) && Cuts(p, cap) != []
    ensures buf == ""
  {
  }

  lemma {:induction false} SplitLongInk(text: string, cap: nat)
    requires cap > 0
    ensures InkAll(SplitLong(text, cap)) == Ink(text)
  {
    SentencesInk(text);
    PartsInk("", Sentences(text), cap);
  }

  // ---------- prose ----------

  lemma {:induction false} TaggedMarks(parts: seq<string>, heading: string, page: Option<int>)
    ensures UnitMarks(Tagged(parts, page), heading) == Tag(InkAll(parts), heading, page)
  {
    if parts != [] {
      TaggedMarks(parts[1..], heading, page);
      TagAppend(Ink(parts[0]), InkAll(parts[1..]), heading, page);
    }
  }

  predicate Under(blocks: seq<Block>, heading: string) {
    blocks == [] || (blocks[0].heading == heading && Under(blocks[1..], heading))
  }

  lemma {:induction false} UnderAppend(blocks: seq<Block>, b: Block)
    requires Under(blocks, b.heading)
    ensures Under(blocks + [b], b.heading)
  {
    if blocks == [] {
      assert ([] + [b])[1..] == [];
    } else {
      assert (blocks + [b])[1..] == blocks[1..] + [b];
      UnderAppend(blocks[1..], b);
    }
  }

  lemma {:induction false} UnitsSpell(blocks: seq<Block>, heading: string, cap: nat)
    requires cap > 0 && Under(blocks, heading)
    ensures UnitMarks(UnitsOf(blocks, cap), heading) == Visible(blocks)
  {
    if blocks != [] {
      var b := blocks[0];
      UnitsSpell(blocks[1..], heading, cap);
      SplitLongInk(Strip(b.text), cap);
      InkStrip(b.text);
      TaggedMarks(SplitLong(Strip(b.text), cap), heading, b.page);
      UnitMarksAppend(Tagged(SplitLong(Strip(b.text), cap), b.page), UnitsOf(blocks[1..], cap), heading);
    }
  }

  lemma {:induction false} AllAgreeCat(a: seq<Mark>, b: seq<Mark>, heading: string, page: Option<int>)
    requires AllAgree(a, heading, page) && AllAgree(b, heading, page)
    ensures AllAgree(Cat(a, b), heading, page)
  {
    if a != [] {
      AllAgreeCat(a[1..], b, heading, page);
      assert (a + b)[1..] == Cat(a[1..], b);
    }
  }

  lemma {:induction false} LettersCons(m: Mark, ms: seq<Mark>)
    ensures Letters([m] + ms) == [m.c] + Letters(ms)
  {
    assert ([m] + ms)[1..] == ms;
  }

  lemma {:induction false} LettersCatCons(m: Mark, rest: seq<Mark>, b: seq<Mark>)
    requires Letters(Cat(rest, b)) == Letters(rest) + Letters(b)
    ensures Letters([m] + Cat(rest, b)) == Letters([m] + rest) + Letters(b)
  {
    LettersCons(m, Cat(rest, b));
    LettersCons(m, rest);
    Regroup([m.c], Letters(rest), Letters(b));
  }

  lemma {:induction false} CatCons<T>(m: T, rest: seq<T>, b: seq<T>)
    ensures Cat([m] + rest, b) == [m] + Cat(rest, b)
  {
    assert ([m] + rest) + b == [m] + (rest + b);
  }

  lemma {:induction false} LettersCat(a: seq<Mark>, b: seq<Mark>)
    ensures Letters(Cat(a, b)) == Letters(a) + Letters(b)
  {
    if a != [] {
      LettersCat(a[1..], b);
      LettersCatCons(a[0], a[1..], b);
      CatCons(a[0], a[1..], b);
      assert [a[0]] + a[1..] == a;
    }
  }

  /** A page is compatible with a list of pages: none of them is another one. */
  predicate Fits(pages: seq<Option<int>>, page: Option<int>) {
    page == None || OnlyPage(pages, page.value)
  }

  lemma {:induction false} FitsStep(first: Option<int>, pages: seq<Option<int>>, page: Option<int>)
    requires Fits([first] + pages, page)
    ensures Fits(pages, page) && (page == None || first == None || first == page)
  {
    if page.Some? {
      assert first in [first] + pages;
      assert forall q :: q in pages ==> q in [first] + pages;
    }
  }

  lemma {:induction false} UnitsAgree(units: seq<Unit>, heading: string, page: Option<int>)
    requires Fits(Pages(units), page)
    ensures Letters(UnitMarks(units, heading)) == InkAll(Texts(units))
    ensures AllAgree(UnitMarks(units, heading), heading, page)
  {
    if units != [] {
      var u := units[0];
      FitsStep(u.page, Pages(units[1..]), page);
      UnitsAgree(units[1..], heading, page);
      TagAgrees(Ink(u.text), heading, u.page, page);
      var a, b := Tag(Ink(u.text), heading, u.page), UnitMarks(units[1..], heading);
      LettersCat(a, b);
      AllAgreeCat(a, b, heading, page);
    }
  }

  /** The page of a chunk: `p` exactly if some absorbed unit is on page `p` and every other
      one is on it too or on no known page. */
  lemma {:induction false} OnePageExact(pages: seq<Option<int>>, p: int)
    ensures OnePage(pages) == Some(p) <==> Some(p) in pages && OnlyPage(pages, p)
  {
    if pages != [] {
      assert pages[0] in pages;
      assert forall q :: q in pages <==> q == pages[0] || q in pages[1..];
      OnePageExact(pages[1..], p);
    }
  }

  lemma {:induction false} AddedInk(w: Window)
    ensures Ink(AddedText(w)) == InkAll(Texts(w.added))
  {
    InkJoin(Texts(w.added));
    if w.overlap != "" && w.added != [] {
      InkAppend("\n", Join(Texts(w.added)));
    } else {
      assert "" + Join(Texts(w.added)) == Join(Texts(w.added));
    }
  }

  lemma {:induction false} WindowHolds(w: Window, heading: string)
    ensures Holds(WindowPiece(w, heading), UnitMarks(w.added, heading))
  {
    AddedInk(w);
    var page := OnePage(Pages(w.added));
    if page.Some? {
      OnePageExact(Pages(w.added), page.value);
    }
    UnitsAgree(w.added, heading, page);
  }

  /** Packing into windows keeps every unit, in order. */
  lemma {:induction false} WindowsSpell(w: Window, units: seq<Unit>, cfg: Config, heading: string)
    ensures Spells(WindowPieces(Windows(w, units, cfg), heading), Cat(UnitMarks(w.added, heading), UnitMarks(units, heading)))
    decreases |units|
  {
    var mine := UnitMarks(w.added, heading);
    if units == [] {
      CatNothing(mine);
      if w.added != [] {
        WindowHolds(w, heading);
        SpellsFirst(WindowPiece(w, heading), mine, [], []);
        assert WindowPieces([w], heading) == [WindowPiece(w, heading)] + [];
      }
    } else {
      var u, next := units[0], AddUnit(w, units[0], cfg);
      WindowsSpell(next, units[1..], cfg, heading);
      var rest := Windows(next, units[1..], cfg);
      assert UnitMarks(units, heading) == Cat(UnitMarks([u], heading), UnitMarks(units[1..], heading)) by {
        UnitMarksAppend([u], units[1..], heading);
        assert [u] + units[1..] == units;
      }
      if Flushes(w, u, cfg) {
        WindowHolds(w, heading);
        SpellsFirst(WindowPiece(w, heading), mine, WindowPieces(rest, heading), UnitMarks(units, heading));
        assert ([w] + rest)[1..] == rest;
      } else {
        UnitMarksAppend(w.added, [u], heading);
        assert Cat(w.added, [u]) == w.added + [u];
        CatAssociative(mine, UnitMarks([u], heading), UnitMarks(units[1..], heading));
      }
    }
  }

  lemma {:induction false} ProseSpells(blocks: seq<Block>, heading: string, cfg: Config)
    requires cfg.cap > 0 && Under(blocks, heading)
    ensures Spells(ProsePieces(blocks, heading, cfg), Visible(blocks))
  {
    WindowsSpell(NO_WINDOW, UnitsOf(blocks, cfg.cap), cfg, heading);
    UnitsSpell(blocks, heading, cfg.cap);
  }

  // ---------- tables ----------

  lemma {:induction false} NonBlankInk(lines: seq<string>)
    ensures InkAll(NonBlank(lines)) == InkAll(lines)
  {
    if lines != [] {
      NonBlankInk(lines[1..]);
      StripEmpty(lines[0]);
      if Strip(lines[0]) != "" {
        assert ([lines[0]] + NonBlank(lines[1..]))[1..] == NonBlank(lines[1..]);
      }
    }
  }

  /** A table block is its header rows and its data rows. */
  lemma {:induction false} TableInk(text: string, sep: Separator)
    requires TableSplit(text, sep).Some?
    ensures var t := TableSplit(text, sep).value; Ink(t.prefix) + InkAll(t.rows) == Ink(text)
    ensures InkAll(TableSplit(text, sep).value.rows) == "" <==> TableSplit(text, sep).value.rows == []
  {
    var lines := Lines(text);
    SeparatorRowRange(lines, 0, sep);
    var i := SeparatorRow(lines, 0, sep).value;
    InkLines(text);
    InkJoin(lines[..i + 1]);
    NonBlankInk(lines[i + 1..]);
    assert lines == lines[..i + 1] + lines[i + 1..];
    InkAllAppend(lines[..i + 1], lines[i + 1..]);
    NonBlankHasInk(lines[i + 1..]);
  }

  lemma {:induction false} NonBlankHasInk(lines: seq<string>)
    ensures InkAll(NonBlank(lines)) == "" <==> NonBlank(lines) == []
  {
    if lines != [] {
      NonBlankHasInk(lines[1..]);
      StripEmpty(lines[0]);
    }
  }

  lemma {:induction false} BodiesInk(cur: seq<string>, rows: seq<string>, budget: int)
    ensures InkAll(Bodies(cur, rows, budget)) == InkAll(cur) + InkAll(rows)
    decreases |rows|, |cur|
  {
    if rows == [] {
      InkJoin(cur);
      assert InkAll([Join(cur)][1..]) == "";
    } else if cur != [] && Weight(cur) + |rows[0]| + 1 > budget {
      BodiesInk([], rows, budget);
      FlushInk(cur, rows, budget);
    } else if |rows[0]| + 1 > budget {
      assert cur == [];
      BodiesInk([], rows[1..], budget);
      OverlongInk(rows[0], rows[1..], budget);
    } else {
      BodiesInk(cur + [rows[0]], rows[1..], budget);
      AppendInk(cur, rows[0], InkAll(rows[1..]));
    }
  }

  lemma {:induction false} AppendInk(cur: seq<string>, row: string, rest: string)
    ensures InkAll(cur + [row]) + rest == InkAll(cur) + (Ink(row) + rest)
  {
    InkAllAppend(cur, [row]);
    assert InkAll([row][1..]) == "";
  }

  lemma {:induction false} FlushInk(cur: seq<string>, rows: seq<string>, budget: int)
    requires cur != [] && rows != [] && Weight(cur) + |rows[0]| + 1 > budget
    requires InkAll(Bodies([], rows, budget)) == InkAll([]) + InkAll(rows)
    ensures InkAll(Bodies(cur, rows, budget)) == InkAll(cur) + InkAll(rows)
  {
    InkJoin(cur);
    Flushed(cur, rows, budget);
    InkAllFirst(Join(cur), Bodies([], rows, budget));
    assert "" + InkAll(rows) == InkAll(rows);
  }

  lemma {:induction false} Flushed(cur: seq<string>, rows: seq<string>, budget: int)
    requires cur != [] && rows != [] && Weight(cur) + |rows[0]| + 1 > budget
    ensures Bodies(cur, rows, budget) == [Join(cur)] + Bodies([], rows, budget)
  {
  }

  lemma {:induction false} OverlongInk(row: string, rows: seq<string>, budget: int)
    requires InkAll(Bodies([], rows, budget)) == InkAll([]) + InkAll(rows)
    ensures InkAll(Cat(SplitLong(row, AtLeastOne(budget)), Bodies([], rows, budget)))
         == InkAll([]) + (Ink(row) + InkAll(rows))
  {
    SplitLongInk(row, AtLeastOne(budget));
    InkAllCat(SplitLong(row, AtLeastOne(budget)), Bodies([], rows, budget));
  }

  lemma {:induction false} BodiesSpell(prefix: string, bodies: seq<string>, heading: string, page: Option<int>)
    ensures Spells(BodyPieces(prefix, bodies, heading, page, false), Tag(InkAll(bodies), heading, page))
    decreases |bodies|
  {
    if bodies != [] {
      BodiesSpell(prefix, bodies[1..], heading, page);
      var p := Piece(prefix + "\n", bodies[0], heading, page);
      TagHolds(p);
      SpellsFirst(p, Tag(Ink(bodies[0]), heading, page), BodyPieces(prefix, bodies[1..], heading, page, false),
                  Tag(InkAll(bodies[1..]), heading, page));
      TagAppend(Ink(bodies[0]), InkAll(bodies[1..]), heading, page);
    }
  }

  lemma {:induction false} HeaderInk(prefix: string, body: string)
    ensures Ink(prefix + "\n" + body) == Ink(prefix) + Ink(body)
  {
    InkAppend(prefix + "\n", body);
    InkAppend(prefix, "\n");
  }

  lemma {:induction false} TableSpells(t: Table, heading: string, page: Option<int>, cfg: Config)
    requires InkAll(t.rows) == "" <==> t.rows == []
    ensures Spells(TablePieces(t, heading, page, cfg), Tag(Ink(t.prefix) + InkAll(t.rows), heading, page))
  {
    if t.rows == [] {
      assert Ink(t.prefix) + "" == Ink(t.prefix);
      StripEmpty(t.prefix);
      if Strip(t.prefix) != "" {
        var p := Piece("", t.prefix, heading, page);
        TagHolds(p);
        CatNothing(Tag(Ink(t.prefix), heading, page));
        SpellsFirst(p, Tag(Ink(t.prefix), heading, page), [], []);
        assert [p] + [] == [p];
      }
    } else {
      var bodies := Bodies([], t.rows, Budget(t, cfg));
      BodiesInk([], t.rows, Budget(t, cfg));
      var p := Piece("", t.prefix + "\n" + bodies[0], heading, page);
      HeaderInk(t.prefix, bodies[0]);
      TagHolds(p);
      BodiesSpell(t.prefix, bodies[1..], heading, page);
      SpellsFirst(p, Tag(Ink(p.added), heading, page), BodyPieces(t.prefix, bodies[1..], heading, page, false),
                  Tag(InkAll(bodies[1..]), heading, page));
      TagAppend(Ink(p.added), InkAll(bodies[1..]), heading, page);
      Regroup(Ink(t.prefix), Ink(bodies[0]), InkAll(bodies[1..]));
      assert InkAll(bodies) == InkAll(t.rows);
      assert Ink(p.added) + InkAll(bodies[1..]) == Ink(t.prefix) + InkAll(t.rows);
      assert TablePieces(t, heading, page, cfg) == [p] + BodyPieces(t.prefix, bodies[1..], heading, page, false);
    }
  }

  // ---------- documents ----------

  lemma {:induction false} BlockSpells(b: Block, cfg: Config, sep: Separator)
    requires AsTable(b, cfg, sep).Some?
    ensures Spells(TablePieces(AsTable(b, cfg, sep).value, b.heading, b.page, cfg), Tag(Ink(b.text), b.heading, b.page))
  {
    InkStrip(b.text);
    TableInk(Strip(b.text), sep);
    TableSpells(AsTable(b, cfg, sep).value, b.heading, b.page, cfg);
  }

  lemma {:induction false} WalkSpells(prose: seq<Block>, heading: string, blocks: seq<Block>, cfg: Config, sep: Separator)
    requires cfg.cap > 0 && Under(prose, heading)
    ensures Spells(Walk(prose, heading, blocks, cfg, sep), Cat(Visible(prose), Visible(blocks)))
    decreases |blocks|, if blocks != [] && blocks[0].heading != heading then 1 else 0
  {
    if blocks == [] {
      ProseSpells(prose, heading, cfg);
      CatNothing(Visible(prose));
    } else if blocks[0].heading != heading {
      ProseSpells(prose, heading, cfg);
      WalkSpells([], blocks[0].heading, blocks, cfg, sep);
      SpellsCat(ProsePieces(prose, heading, cfg), Visible(prose),
                Walk([], blocks[0].heading, blocks, cfg, sep), Visible(blocks));
    } else {
      var b := blocks[0];
      match AsTable(b, cfg, sep)
      case None =>
        UnderAppend(prose, b);
        WalkSpells(prose + [b], heading, blocks[1..], cfg, sep);
        VisibleAppend(prose, b);
        CatAssociative(Visible(prose), Tag(Ink(b.text), b.heading, b.page), Visible(blocks[1..]));
      case Some(t) =>
        ProseSpells(prose, heading, cfg);
        BlockSpells(b, cfg, sep);
        WalkSpells([], heading, blocks[1..], cfg, sep);
        SpellsCat(TablePieces(t, heading, b.page, cfg), Tag(Ink(b.text), b.heading, b.page),
                  Walk([], heading, blocks[1..], cfg, sep), Visible(blocks[1..]));
        SpellsCat(ProsePieces(prose, heading, cfg), Visible(prose),
                  Cat(TablePieces(t, heading, b.page, cfg), Walk([], heading, blocks[1..], cfg, sep)), Visible(blocks));
    }
  }

  /** The pieces that become chunks. */
  function Kept(pieces: seq<Piece>): seq<Piece> {
    if pieces == [] then []
    else if Strip(pieces[0].repeated + pieces[0].added) == "" then Kept(pieces[1..])
    else [pieces[0]] + Kept(pieces[1..])
  }

  lemma {:induction false} KeptSpells(pieces: seq<Piece>, ms: seq<Mark>)
    requires Spells(pieces, ms)
    ensures Spells(Kept(pieces), ms)
  {
    if pieces != [] {
      var p := pieces[0];
      var n := |Ink(p.added)|;
      KeptSpells(pieces[1..], ms[n..]);
      if Strip(p.repeated + p.added) == "" {
        StripEmpty(p.repeated + p.added);
        InkAppend(p.repeated, p.added);
        assert ms[0..] == ms;
      } else {
        SpellsFirst(p, ms[..n], Kept(pieces[1..]), ms[n..]);
        assert Cat(ms[..n], ms[n..]) == ms;
      }
    }
  }

  /** The chunk made of a piece: its repeated text, then its new text. */
  predicate Made(c: Chunk, p: Piece) {
    && c.text == Strip(p.repeated + p.added) && Ink(c.text) == Ink(p.repeated) + Ink(p.added)
    && c.heading == p.heading && c.page == p.page
  }

  predicate MadeFrom(cs: seq<Chunk>, pieces: seq<Piece>) {
    if cs == [] || pieces == [] then cs == [] && pieces == []
    else Made(cs[0], pieces[0]) && MadeFrom(cs[1..], pieces[1..])
  }

  lemma {:induction false} KeptMade(pieces: seq<Piece>)
    ensures MadeFrom(ChunksOf(pieces), Kept(pieces))
  {
    if pieces != [] {
      var p := pieces[0];
      KeptMade(pieces[1..]);
      InkStrip(p.repeated + p.added);
      InkAppend(p.repeated, p.added);
      if ChunkOf(p) != [] {
        assert ChunksOf(pieces)[1..] == ChunksOf(pieces[1..]);
        assert Kept(pieces)[1..] == Kept(pieces[1..]);
      }
    }
  }

  /** Conservation. Each chunk is some repeated text followed by new text; the new text of
      the chunks, in order, is every visible character of the document exactly once; and
      all the new text of a chunk lies under the heading it carries and, when it carries a
      page, on that page or on none. */
  lemma {:induction false} ChunksSpellTheDocument(blocks: seq<Block>, targetTokens: int, overlap: int, sep: Separator)
    returns (kept: seq<Piece>)
    ensures ChunkAll(blocks, targetTokens, overlap, sep).Chunks?
    ensures MadeFrom(ChunkAll(blocks, targetTokens, overlap, sep).chunks, kept)
    ensures Spells(kept, Visible(blocks))
    ensures kept == Kept(Pieces(blocks, Sizes(targetTokens, overlap), sep))
  {
    var cfg := Sizes(targetTokens, overlap);
    var pieces := Pieces(blocks, cfg, sep);
    NeverTooLong(blocks, targetTokens, overlap, sep);
    if blocks != [] {
      WalkSpells([], blocks[0].heading, blocks, cfg, sep);
    }
    kept := Kept(pieces);
    KeptSpells(pieces, Visible(blocks));
    KeptMade(pieces);
  }

  // ---------- what a chunk may repeat ----------

  predicate EndsWith(s: string, end: string) {
    |end| <= |s| && s[|s| - |end|..] == end
  }

  /** Repeated text is the end of the text before it, at most `oc` characters of it, or a
      header that the text before it starts with. */
  predicate Repeats(repeated: string, prev: string, oc: nat) {
    repeated == "" || (|repeated| <= oc && EndsWith(prev, repeated)) || repeated <= prev
  }

  predicate RepeatsFrom(prev: string, pieces: seq<Piece>, oc: nat)
    decreases |pieces|
  {
    pieces == []
    || (Repeats(pieces[0].repeated, prev, oc) && RepeatsFrom(pieces[0].repeated + pieces[0].added, pieces[1..], oc))
  }

  lemma {:induction false} RepeatsCat(prev: string, a: seq<Piece>, b: seq<Piece>, oc: nat)
    requires RepeatsFrom(prev, a, oc) && RepeatsFrom("", b, oc)
    ensures RepeatsFrom(prev, Cat(a, b), oc)
    decreases |a|
  {
    if a != [] {
      RepeatsCat(a[0].repeated + a[0].added, a[1..], b, oc);
      assert (a + b)[1..] == Cat(a[1..], b);
    }
  }

  lemma {:induction false} WindowsRepeat(prev: string, w: Window, units: seq<Unit>, cfg: Config, heading: string)
    requires |w.overlap| <= cfg.oc && EndsWith(prev, w.overlap)
    ensures RepeatsFrom(prev, WindowPieces(Windows(w, units, cfg), heading), cfg.oc)
    decreases |units|
  {
    if units == [] {
      if w.added != [] {
        assert WindowPieces([w], heading)[1..] == [];
      }
    } else {
      var next := AddUnit(w, units[0], cfg);
      var rest := Windows(next, units[1..], cfg);
      if Flushes(w, units[0], cfg) {
        WindowsRepeat(BufText(w), next, units[1..], cfg, heading);
        assert ([w] + rest)[1..] == rest;
        assert WindowPieces([w] + rest, heading)[1..] == WindowPieces(rest, heading);
      } else {
        WindowsRepeat(prev, next, units[1..], cfg, heading);
      }
    }
  }

  lemma {:induction false} BodiesRepeat(prev: string, prefix: string, bodies: seq<string>, heading: string, page: Option<int>, oc: nat)
    requires prefix + "\n" <= prev
    ensures RepeatsFrom(prev, BodyPieces(prefix, bodies, heading, page, false), oc)
    decreases |bodies|
  {
    if bodies != [] {
      BodiesRepeat(prefix + "\n" + bodies[0], prefix, bodies[1..], heading, page, oc);
    }
  }

  lemma {:induction false} TableRepeats(t: Table, heading: string, page: Option<int>, cfg: Config)
    ensures RepeatsFrom("", TablePieces(t, heading, page, cfg), cfg.oc)
  {
    var bodies := Bodies([], t.rows, Budget(t, cfg));
    if t.rows != [] && bodies != [] {
      var text := t.prefix + "\n" + bodies[0];
      assert "" + text == text;
      BodiesRepeat(text, t.prefix, bodies[1..], heading, page, cfg.oc);
    }
  }

  lemma {:induction false} WalkRepeats(prose: seq<Block>, heading: string, blocks: seq<Block>, cfg: Config, sep: Separator)
    requires cfg.cap > 0
    ensures RepeatsFrom("", Walk(prose, heading, blocks, cfg, sep), cfg.oc)
    decreases |blocks|, if blocks != [] && blocks[0].heading != heading then 1 else 0
  {
    var mine := ProsePieces(prose, heading, cfg);
    WindowsRepeat("", NO_WINDOW, UnitsOf(prose, cfg.cap), cfg, heading);
    if blocks == [] {
    } else if blocks[0].heading != heading {
      WalkRepeats([], blocks[0].heading, blocks, cfg, sep);
      RepeatsCat("", mine, Walk([], blocks[0].heading, blocks, cfg, sep), cfg.oc);
    } else {
      match AsTable(blocks[0], cfg, sep)
      case None => WalkRepeats(prose + [blocks[0]], heading, blocks[1..], cfg, sep);
      case Some(t) =>
        var table, rest := TablePieces(t, heading, blocks[0].page, cfg), Walk([], heading, blocks[1..], cfg, sep);
        TableRepeats(t, heading, blocks[0].page, cfg);
        WalkRepeats([], heading, blocks[1..], cfg, sep);
        RepeatsCat("", table, rest, cfg.oc);
        RepeatsCat("", mine, Cat(table, rest), cfg.oc);
    }
  }

  /** What a chunk repeats is only ever the end of the text just before it or a table
      header that text began with. */
  lemma {:induction false} OnlyNeighboursRepeat(blocks: seq<Block>, targetTokens: int, overlap: int, sep: Separator)
    ensures var cfg := Sizes(targetTokens, overlap); RepeatsFrom("", Pieces(blocks, cfg, sep), cfg.oc)
  {
    if blocks != [] {
      WalkRepeats([], blocks[0].heading, blocks, Sizes(targetTokens, overlap), sep);
    }
  }

  // ---------- table headers ----------

  lemma {:induction false} RStripBlank(a: string, b: string)
    requires Blank(b)
    ensures RStrip(a + b) == RStrip(a)
    decreases |b|
  {
    if b == "" {
      assert a + b == a;
    } else {
      BlankEnd(b);
      assert (a + b)[..|a + b| - 1] == a + b[..|b| - 1];
      RStripBlank(a, b[..|b| - 1]);
    }
  }

  lemma {:induction false} BlankEnd(b: string)
    requires b != ""
    ensures Blank(b) <==> IsSpace(b[|b| - 1]) && Blank(b[..|b| - 1])
  {
    InkAppend(b[..|b| - 1], [b[|b| - 1]]);
    assert b == b[..|b| - 1] + [b[|b| - 1]];
    assert [b[|b| - 1]][1..] == "";
  }

  lemma {:induction false} RStripInked(a: string, b: string)
    requires !Blank(b)
    ensures a <= RStrip(a + b)
    decreases |b|
  {
    if b == "" {
      assert false;
    } else if IsSpace(b[|b| - 1]) {
      BlankEnd(b);
      assert (a + b)[..|a + b| - 1] == a + b[..|b| - 1];
      RStripInked(a, b[..|b| - 1]);
    }
  }

  lemma {:induction false} RStripPrefix(a: string)
    ensures RStrip(a) <= a
    decreases |a|
  {
    if a != "" && IsSpace(a[|a| - 1]) {
      RStripPrefix(a[..|a| - 1]);
    }
  }

  lemma {:induction false} BodyPieceText(prefix: string, bodies: seq<string>, heading: string, page: Option<int>, first: bool, i: nat)
    requires i < |BodyPieces(prefix, bodies, heading, page, first)|
    ensures |bodies| == |BodyPieces(prefix, bodies, heading, page, first)|
    ensures var p := BodyPieces(prefix, bodies, heading, page, first)[i]; p.repeated + p.added == prefix + "\n" + bodies[i]
    decreases |bodies|
  {
    BodyPiecesLength(prefix, bodies, heading, page, first);
    if i > 0 {
      BodyPieceText(prefix, bodies[1..], heading, page, false, i - 1);
    }
  }

  lemma {:induction false} BodyPiecesLength(prefix: string, bodies: seq<string>, heading: string, page: Option<int>, first: bool)
    ensures |BodyPieces(prefix, bodies, heading, page, first)| == |bodies|
    decreases |bodies|
  {
    if bodies != [] {
      BodyPiecesLength(prefix, bodies[1..], heading, page, false);
    }
  }

  lemma {:induction false} PrefixHead(text: string, sep: Separator)
    requires text != "" && !IsSpace(text[0]) && TableSplit(text, sep).Some?
    ensures var prefix := TableSplit(text, sep).value.prefix; prefix != "" && prefix[0] == text[0]
  {
    var lines := Lines(text);
    SeparatorRowRange(lines, 0, sep);
    assert FirstFeed(text) > 0;
    assert lines[0] != "" && lines[0][0] == text[0];
  }

  /** The chunk of a table body: it starts with the header, up to trailing white space;
      it is the header alone exactly if the body is blank. */
  predicate Headed(c: Chunk, prefix: string, body: string) {
    && RStrip(prefix) <= c.text
    && (Blank(body) <==> c.text == RStrip(prefix))
    && (!Blank(body) ==> prefix + "\n" <= c.text && c.text == RStrip(prefix + "\n" + body))
  }

  lemma {:induction false} BodyChunk(p: Piece, prefix: string, body: string)
    requires prefix != "" && !IsSpace(prefix[0])
    requires p.repeated + p.added == prefix + "\n" + body || (body == "" && p.repeated + p.added == prefix)
    ensures |ChunkOf(p)| == 1 && Headed(ChunkOf(p)[0], prefix, body)
  {
    RStripPrefix(prefix);
    RStripKeeps(prefix);
    HeaderText(prefix, body);
  }

  lemma {:induction false} TablePieceBody(t: Table, heading: string, page: Option<int>, cfg: Config, i: nat)
    returns (body: string)
    requires i < |TablePieces(t, heading, page, cfg)|
    ensures var p := TablePieces(t, heading, page, cfg)[i];
      if t.rows == [] then body == "" && p.repeated + p.added == t.prefix
      else body in Bodies([], t.rows, Budget(t, cfg)) && p.repeated + p.added == t.prefix + "\n" + body
  {
    if t.rows == [] {
      body := "";
      assert "" + t.prefix == t.prefix;
    } else {
      var bodies := Bodies([], t.rows, Budget(t, cfg));
      BodyPieceText(t.prefix, bodies, heading, page, true, i);
      body := bodies[i];
    }
  }

  predicate AllInked(lines: seq<string>) {
    lines == [] || (!Blank(lines[0]) && AllInked(lines[1..]))
  }

  lemma {:induction false} NonBlankInked(lines: seq<string>)
    ensures AllInked(NonBlank(lines))
  {
    if lines != [] {
      NonBlankInked(lines[1..]);
      StripEmpty(lines[0]);
    }
  }

  lemma {:induction false} InkedMore(lines: seq<string>, line: string)
    requires AllInked(lines) && !Blank(line)
    ensures AllInked(lines + [line])
  {
    if lines == [] {
      assert ([] + [line])[1..] == [];
    } else {
      InkedMore(lines[1..], line);
      assert (lines + [line])[1..] == lines[1..] + [line];
    }
  }

  lemma {:induction false} PackedIsInked(cur: seq<string>)
    requires cur != [] && AllInked(cur)
    ensures !Blank(Join(cur))
  {
    InkJoin(cur);
  }

  /** A blank body is a stretch cut out of a row too long for the budget. */
  lemma {:induction false} BlankBodyIsCut(cur: seq<string>, rows: seq<string>, budget: int, body: string) returns (i: nat)
    requires AllInked(cur) && AllInked(rows) && Blank(body) && body in Bodies(cur, rows, budget)
    ensures i < |rows| && |rows[i]| + 1 > budget && body in SplitLong(rows[i], AtLeastOne(budget))
    decreases |rows|, |cur|
  {
    if cur != [] {
      PackedIsInked(cur);
    }
    i := 0;
    if rows == [] {
      assert false;
    } else if cur != [] && Weight(cur) + |rows[0]| + 1 > budget {
      Flushed(cur, rows, budget);
      i := BlankBodyIsCut([], rows, budget, body);
    } else if |rows[0]| + 1 > budget {
      if body !in SplitLong(rows[0], AtLeastOne(budget)) {
        var k := BlankBodyIsCut(cur, rows[1..], budget, body);
        i := k + 1;
      }
    } else {
      InkedMore(cur, rows[0]);
      var k := BlankBodyIsCut(cur + [rows[0]], rows[1..], budget, body);
      i := k + 1;
    }
  }

  /** Where a blank body of a table comes from. */
  ghost predicate CutFromRow(t: Table, budget: int, body: string) {
    exists i :: 0 <= i < |t.rows| && |t.rows[i]| + 1 > budget && body in SplitLong(t.rows[i], AtLeastOne(budget))
  }

  lemma {:induction false} BlankBodyOf(text: string, sep: Separator, budget: int, body: string)
    requires TableSplit(text, sep).Some? && Blank(body)
    requires body in Bodies([], TableSplit(text, sep).value.rows, budget)
    ensures CutFromRow(TableSplit(text, sep).value, budget, body)
  {
    var lines := Lines(text);
    SeparatorRowRange(lines, 0, sep);
    NonBlankInked(lines[SeparatorRow(lines, 0, sep).value + 1..]);
    var i := BlankBodyIsCut([], TableSplit(text, sep).value.rows, budget, body);
  }

  /** Every chunk of a table block is headed by the table's header; the header stands alone
      exactly if the table has no rows or the body is a blank stretch cut out of an
      overlong row. */
  lemma {:induction false} HeaderOnEveryChunk(b: Block, cfg: Config, sep: Separator, i: nat)
    returns (body: string)
    requires AsTable(b, cfg, sep).Some?
    requires i < |TablePieces(AsTable(b, cfg, sep).value, b.heading, b.page, cfg)|
    ensures var t := AsTable(b, cfg, sep).value;
      var chunk := ChunkOf(TablePieces(t, b.heading, b.page, cfg)[i]);
      && |chunk| == 1 && Headed(chunk[0], t.prefix, body)
      && (if t.rows == [] then body == "" else body in Bodies([], t.rows, Budget(t, cfg)))
      && (t.rows != [] && Blank(body) ==> CutFromRow(t, Budget(t, cfg), body))
  {
    var t := AsTable(b, cfg, sep).value;
    StripHead(b.text);
    PrefixHead(Strip(b.text), sep);
    body := TablePieceBody(t, b.heading, b.page, cfg, i);
    BodyChunk(TablePieces(t, b.heading, b.page, cfg)[i], t.prefix, body);
    if t.rows != [] && Blank(body) {
      BlankBodyOf(Strip(b.text), sep, Budget(t, cfg), body);
    }
  }

  lemma {:induction false} StripHead(s: string)
    ensures Strip(s) != "" ==> !IsSpace(Strip(s)[0])
  {
    LStripHead(s);
    if LStrip(s) != "" {
      RStripKeeps(LStrip(s));
    }
  }

  lemma {:induction false} HeaderText(prefix: string, body: string)
    requires prefix != "" && !IsSpace(prefix[0])
    ensures var text := prefix + "\n" + body;
      && Strip(text) == RStrip(text) != ""
      && (if Blank(body) then RStrip(text) == RStrip(prefix) else prefix + "\n" <= RStrip(text))
  {
    RStripKeeps(prefix + "\n" + body);
    if Blank(body) {
      RStripBlank(prefix + "\n", body);
      RStripBlank(prefix, "\n");
    } else {
      RStripInked(prefix + "\n", body);
    }
  }

  // ---------- rows stay whole ----------

  lemma {:induction false} PackedTogether(cur: seq<string>, rows: seq<string>, budget: int) returns (more: seq<string>)
    requires cur != []
    ensures Join(cur + more) in Bodies(cur, rows, budget)
    decreases |rows|
  {
    more := [];
    assert cur + [] == cur;
    if rows != [] {
      if Weight(cur) + |rows[0]| + 1 > budget {
        FlushBody(cur, rows, budget);
      } else {
        var rest := PackedTogether(cur + [rows[0]], rows[1..], budget);
        more := [rows[0]] + rest;
        assert cur + more == (cur + [rows[0]]) + rest;
      }
    }
  }

  /** A row that fits the budget is never cut: it is one of the lines of some body. */
  lemma {:induction false} RowsStayWhole(cur: seq<string>, rows: seq<string>, budget: int, i: nat)
    returns (before: seq<string>, after: seq<string>)
    requires i < |rows| && |rows[i]| + 1 <= budget
    ensures Join(before + [rows[i]] + after) in Bodies(cur, rows, budget)
    decreases |rows|, |cur|
  {
    if cur != [] && Weight(cur) + |rows[0]| + 1 > budget {
      before, after := RowsStayWhole([], rows, budget, i);
      Flushed(cur, rows, budget);
    } else if i == 0 {
      before := cur;
      after := PackedTogether(cur + [rows[0]], rows[1..], budget);
    } else if |rows[0]| + 1 > budget {
      before, after := RowsStayWhole(cur, rows[1..], budget, i - 1);
    } else {
      before, after := RowsStayWhole(cur + [rows[0]], rows[1..], budget, i - 1);
    }
  }
}
