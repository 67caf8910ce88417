/** Cutting a parsed document into overlapping chunks under a hard token bound
    (tools/embed_service.py:1086-1251). */
module Chunker {
  import opened PyText

  datatype Block = Block(text: string, heading: string, page: Option<int>)

  datatype Option<+T> = None | Some(value: T)

  datatype Chunk = Chunk(text: string, heading: string, page: Option<int>, tokens: nat)

  const MAX_TOKENS: nat := 480

  /** `math.ceil(n / 1.6)`, exactly. */
  function EstTokens(n: nat): nat { (5 * n + 7) / 8 }

  /** `int(tokens * 1.6)`, exactly. */
  function ToChars(tokens: nat): nat { 8 * tokens / 5 }

  // ---------- the chunk list ----------

  /** The list of chunks, or the exception raised while filling it. */
  datatype Outcome = Chunks(chunks: seq<Chunk>) | TooLong(tokens: nat)

  /** `_emit`. */
  function Emit(out: Outcome, text: string, heading: string, page: Option<int>): Outcome {
    var t := Strip(text);
    if out.TooLong? || t == "" then out
    else if EstTokens(|t|) > MAX_TOKENS then TooLong(EstTokens(|t|))
    else Chunks(out.chunks + [Chunk(t, heading, page, EstTokens(|t|))])
  }

  /** What one call of `_emit` is about: text already emitted before (an overlap, a table
      header) followed by new text. */
  datatype Piece = Piece(repeated: string, added: string, heading: string, page: Option<int>)

  function EmitAll(out: Outcome, pieces: seq<Piece>): Outcome
    decreases |pieces|
  {
    if pieces == [] then out
    else
      var p := pieces[0];
      EmitAll(Emit(out, p.repeated + p.added, p.heading, p.page), pieces[1..])
  }

  lemma {:induction false} EmitAllAppend(out: Outcome, a: seq<Piece>, b: seq<Piece>)
    ensures EmitAll(out, Cat(a, b)) == EmitAll(EmitAll(out, a), b)
    decreases |a|
  {
    if a != [] {
      assert (a + b)[1..] == Cat(a[1..], b);
      EmitAllAppend(Emit(out, a[0].repeated + a[0].added, a[0].heading, a[0].page), a[1..], b);
    }
  }

  lemma {:induction false} EmitOne(out: Outcome, p: Piece)
    ensures EmitAll(out, [p]) == Emit(out, p.repeated + p.added, p.heading, p.page)
    ensures p.repeated == "" ==> p.repeated + p.added == p.added
  {
    assert [p][1..] == [];
  }

  // ---------- splitting long text ----------

  predicate SentenceEnd(c: char) {
    c in "。！？；!?;\n"
  }

  function FirstEnd(s: string): (i: nat)
    ensures i <= |s|
  {
    if s == "" || SentenceEnd(s[0]) then 0 else 1 + FirstEnd(s[1..])
  }

  /** `_SENT.split`: cut after every sentence end. */
  function Sentences(s: string): seq<string>
    decreases |s|
  {
    var i := FirstEnd(s);
    if i == |s| then [s] else [s[..i + 1]] + Sentences(s[i + 1..])
  }

  /** The slices of `cap` characters that are cut off a long sentence. */
  function Cuts(piece: string, cap: nat): seq<string>
    requires cap > 0
    decreases |piece|
  {
    if |piece| <= cap then [] else [piece[..cap]] + Cuts(piece[cap..], cap)
  }

  function LastCut(piece: string, cap: nat): (r: string)
    requires cap > 0
    ensures |r| <= cap
    decreases |piece|
  {
    if |piece| <= cap then piece else LastCut(piece[cap..], cap)
  }

  predicate Overfull(buf: string, piece: string, cap: nat) {
    buf != "" && |buf| + |piece| > cap
  }

  /** The parts `_split_long` still yields with `buf` pending. */
  function Parts(buf: string, pieces: seq<string>, cap: nat): seq<string>
    requires cap > 0
    decreases |pieces|
  {
    if pieces == [] then (if Strip(buf) == "" then [] else [buf])
    else
      var p := pieces[0];
      if Overfull(buf, p, cap) then [buf] + Cat(Cuts(p, cap), Parts(LastCut(p, cap), pieces[1..], cap))
      else Cat(Cuts(p, cap), Parts(buf + LastCut(p, cap), pieces[1..], cap))
  }

  function SplitLong(text: string, cap: nat): seq<string>
    requires cap > 0
  {
    Parts("", Sentences(text), cap)
  }

  method SplitLongText(text: string, cap: nat) returns (parts: seq<string>)
    requires cap > 0
    ensures parts == SplitLong(text, cap)
  {
    parts := [];
    var buf := "";
    var pieces := Sentences(text);
    for k := 0 to |pieces|
      invariant Cat(parts, Parts(buf, pieces[k..], cap)) == SplitLong(text, cap)
    {
      var piece := pieces[k];
      assert pieces[k..][0] == piece && pieces[k..][1..] == pieces[k + 1..];
      PartsStep(parts, buf, pieces[k..], cap);
      if Overfull(buf, piece, cap) {
        parts := parts + [buf];
        buf := "";
        assert "" + LastCut(pieces[k], cap) == LastCut(pieces[k], cap);
      }
      parts, piece := CutLong(parts, piece, cap);
      buf := buf + piece;
    }
    if Strip(buf) != "" {
      parts := parts + [buf];
    }
  }

  /** The inner loop: whole slices of a long sentence become parts. */
  method CutLong(parts0: seq<string>, piece0: string, cap: nat) returns (parts: seq<string>, piece: string)
    requires cap > 0
    ensures parts == Cat(parts0, Cuts(piece0, cap)) && piece == LastCut(piece0, cap)
  {
    parts, piece := parts0, piece0;
    while |piece| > cap
      invariant Cat(parts, Cuts(piece, cap)) == Cat(parts0, Cuts(piece0, cap))
      invariant LastCut(piece, cap) == LastCut(piece0, cap)
      decreases |piece|
    {
      CutStep(parts, piece, cap);
      parts := parts + [piece[..cap]];
      piece := piece[cap..];
    }
  }

  lemma {:induction false} CutStep(parts: seq<string>, piece: string, cap: nat)
    requires 0 < cap < |piece|
    ensures Cat(parts, Cuts(piece, cap)) == Cat(parts + [piece[..cap]], Cuts(piece[cap..], cap))
  {
  }

  lemma {:induction false} CatAssociative<T>(a: seq<T>, b: seq<T>, c: seq<T>)
    ensures Cat(a, Cat(b, c)) == Cat(Cat(a, b), c)
  {
    if a != [] && b != [] {
      assert a + (b + c) == (a + b) + c;
    }
  }

  lemma {:induction false} PartsStep(parts: seq<string>, buf: string, pieces: seq<string>, cap: nat)
    requires cap > 0 && pieces != []
    ensures var p := pieces[0];
      var flushed := if Overfull(buf, p, cap) then parts + [buf] else parts;
      var b := if Overfull(buf, p, cap) then "" else buf;
      Cat(parts, Parts(buf, pieces, cap))
        == Cat(Cat(flushed, Cuts(p, cap)), Parts(b + LastCut(p, cap), pieces[1..], cap))
  {
    var p := pieces[0];
    if Overfull(buf, p, cap) {
      var rest := Parts(LastCut(p, cap), pieces[1..], cap);
      assert "" + LastCut(p, cap) == LastCut(p, cap);
      assert Cat(parts, [buf] + Cat(Cuts(p, cap), rest)) == Cat(parts + [buf], Cat(Cuts(p, cap), rest));
      CatAssociative(parts + [buf], Cuts(p, cap), rest);
    } else {
      CatAssociative(parts, Cuts(p, cap), Parts(buf + LastCut(p, cap), pieces[1..], cap));
    }
  }

  // ---------- packing prose ----------

  /** A text unit and the page of its block. */
  datatype Unit = Unit(text: string, page: Option<int>)

  /** A buffer of `_fill`: the overlap it started with and the units added since. */
  datatype Window = Window(overlap: string, added: seq<Unit>)

  function Texts(units: seq<Unit>): seq<string> {
    if units == [] then [] else [units[0].text] + Texts(units[1..])
  }

  function Pages(units: seq<Unit>): seq<Option<int>> {
    if units == [] then [] else [units[0].page] + Pages(units[1..])
  }

  /** The new part of the buffer, with the line feed that separates it from the overlap. */
  function AddedText(w: Window): string {
    (if w.overlap != "" && w.added != [] then "\n" else "") + Join(Texts(w.added))
  }

  function BufText(w: Window): string { w.overlap + AddedText(w) }

  /** `one_page`: the single known page among those absorbed; pages are kept in a list
      where the source keeps a set, which this cannot tell apart. */
  function OnePage(pages: seq<Option<int>>): Option<int> {
    if pages == [] then None
    else if pages[0] == None then OnePage(pages[1..])
    else if OnlyPage(pages[1..], pages[0].value) then pages[0]
    else None
  }

  predicate OnlyPage(pages: seq<Option<int>>, page: int) {
    forall q :: q in pages ==> q == None || q == Some(page)
  }

  /** `buf[len(buf) - overlap:] if overlap else ''`, with Python's negative indices. */
  function Tail(buf: string, overlap: nat): (r: string)
    ensures |r| <= overlap && |r| <= |buf|
  {
    if overlap == 0 then ""
    else if overlap <= |buf| then buf[|buf| - overlap..]
    else if 2 * |buf| >= overlap then buf[2 * |buf| - overlap..]
    else buf
  }

  datatype Config = Config(tc: nat, oc: nat, cap: nat)

  /** The buffer is full: the unit does not fit beside it. */
  predicate Flushes(w: Window, u: Unit, cfg: Config) {
    BufText(w) != "" && |BufText(w)| + 1 + |u.text| > cfg.tc
  }

  /** The buffer after a unit: a new one, starting with an overlap, if the old one is full. */
  function AddUnit(w: Window, u: Unit, cfg: Config): Window {
    if Flushes(w, u, cfg) then Window(Tail(BufText(w), cfg.oc), [u]) else w.(added := w.added + [u])
  }

  /** The windows `_fill` emits for the remaining units. */
  function Windows(w: Window, units: seq<Unit>, cfg: Config): seq<Window>
    decreases |units|
  {
    if units == [] then (if w.added == [] then [] else [w])
    else
      var rest := Windows(AddUnit(w, units[0], cfg), units[1..], cfg);
      if Flushes(w, units[0], cfg) then [w] + rest else rest
  }

  function WindowPiece(w: Window, heading: string): Piece {
    Piece(w.overlap, AddedText(w), heading, OnePage(Pages(w.added)))
  }

  function WindowPieces(ws: seq<Window>, heading: string): seq<Piece> {
    if ws == [] then [] else [WindowPiece(ws[0], heading)] + WindowPieces(ws[1..], heading)
  }

  function Tagged(texts: seq<string>, page: Option<int>): seq<Unit> {
    if texts == [] then [] else [Unit(texts[0], page)] + Tagged(texts[1..], page)
  }

  function UnitsOf(blocks: seq<Block>, cap: nat): seq<Unit>
    requires cap > 0
  {
    if blocks == [] then []
    else Cat(Tagged(SplitLong(Strip(blocks[0].text), cap), blocks[0].page), UnitsOf(blocks[1..], cap))
  }

  const NO_WINDOW := Window("", [])

  function ProsePieces(blocks: seq<Block>, heading: string, cfg: Config): seq<Piece>
    requires cfg.cap > 0
  {
    WindowPieces(Windows(NO_WINDOW, UnitsOf(blocks, cfg.cap), cfg), heading)
  }

  // ---------- tables ----------

  /** The line predicate of the separator row, `_MD_SEP`. */
  type Separator = string -> bool

  predicate HeaderAt(lines: seq<string>, i: nat, sep: Separator)
    requires i < |lines|
  {
    i > 0 && sep(lines[i]) && LStrip(lines[i - 1]) != "" && LStrip(lines[i - 1])[0] == '|'
  }

  /** The first separator row under a `|` row among the first six lines. */
  function SeparatorRow(lines: seq<string>, i: nat, sep: Separator): Option<nat>
    requires i <= |lines|
    decreases |lines| - i
  {
    if i == |lines| || i >= 6 then None
    else if HeaderAt(lines, i, sep) then Some(i)
    else SeparatorRow(lines, i + 1, sep)
  }

  lemma {:induction false} SeparatorRowRange(lines: seq<string>, i: nat, sep: Separator)
    requires i <= |lines|
    ensures SeparatorRow(lines, i, sep).Some? ==>
      i <= SeparatorRow(lines, i, sep).value < |lines| && HeaderAt(lines, SeparatorRow(lines, i, sep).value, sep)
    decreases |lines| - i
  {
    if i < |lines| && i < 6 && !HeaderAt(lines, i, sep) {
      SeparatorRowRange(lines, i + 1, sep);
    }
  }

  function NonBlank(lines: seq<string>): seq<string> {
    if lines == [] then []
    else if Strip(lines[0]) == "" then NonBlank(lines[1..])
    else [lines[0]] + NonBlank(lines[1..])
  }

  datatype Table = Table(prefix: string, rows: seq<string>)

  /** `_table_split`. */
  function TableSplit(text: string, sep: Separator): Option<Table> {
    var lines := Lines(text);
    SeparatorRowRange(lines, 0, sep);
    match SeparatorRow(lines, 0, sep)
    case None => None
    case Some(i) => Some(Table(Join(lines[..i + 1]), NonBlank(lines[i + 1..])))
  }

  function AtLeastOne(n: int): nat { if n < 1 then 1 else n }

  /** The bodies `_fill_table` emits for the remaining rows, `cur` being packed. */
  function Bodies(cur: seq<string>, rows: seq<string>, budget: int): seq<string>
    decreases |rows|, |cur|
  {
    if rows == [] then (if cur == [] then [] else [Join(cur)])
    else
      var row := rows[0];
      var need := |row| + 1;
      if cur != [] && Weight(cur) + need > budget then [Join(cur)] + Bodies([], rows, budget)
      else if need > budget then Cat(SplitLong(row, AtLeastOne(budget)), Bodies(cur, rows[1..], budget))
      else Bodies(cur + [row], rows[1..], budget)
    }

  /** Each body under the header; the header is new text only the first time. */
  function BodyPieces(prefix: string, bodies: seq<string>, heading: string, page: Option<int>, first: bool): seq<Piece>
    decreases |bodies|
  {
    if bodies == [] then []
    else
      [if first then Piece("", prefix + "\n" + bodies[0], heading, page)
       else Piece(prefix + "\n", bodies[0], heading, page)]
      + BodyPieces(prefix, bodies[1..], heading, page, false)
  }

  function Budget(t: Table, cfg: Config): int { cfg.tc - |t.prefix| - 1 }

  /** What `_fill_table` emits. */
  function TablePieces(t: Table, heading: string, page: Option<int>, cfg: Config): seq<Piece> {
    if t.rows == [] then (if Strip(t.prefix) == "" then [] else [Piece("", t.prefix, heading, page)])
    else BodyPieces(t.prefix, Bodies([], t.rows, Budget(t, cfg)), heading, page, true)
  }

  // ---------- whole documents ----------

  const MIN_ROW_BUDGET := 50

  /** The table a block is packed as: a table block whose header leaves room for rows. */
  function AsTable(b: Block, cfg: Config, sep: Separator): Option<Table> {
    var t := Strip(b.text);
    if t == "" then None
    else match TableSplit(t, sep)
      case None => None
      case Some(table) => if Budget(table, cfg) < MIN_ROW_BUDGET then None else Some(table)
  }

  /** What `chunk_blocks` emits for the remaining blocks, `prose` being the blocks of the
      current heading not yet filled in. */
  function Walk(prose: seq<Block>, heading: string, blocks: seq<Block>, cfg: Config, sep: Separator): seq<Piece>
    requires cfg.cap > 0
    decreases |blocks|, if blocks != [] && blocks[0].heading != heading then 1 else 0
  {
    if blocks == [] then ProsePieces(prose, heading, cfg)
    else if blocks[0].heading != heading then
      Cat(ProsePieces(prose, heading, cfg), Walk([], blocks[0].heading, blocks, cfg, sep))
    else
      match AsTable(blocks[0], cfg, sep)
      case None => Walk(prose + [blocks[0]], heading, blocks[1..], cfg, sep)
      case Some(t) =>
        Cat(ProsePieces(prose, heading, cfg),
            Cat(TablePieces(t, heading, blocks[0].page, cfg), Walk([], heading, blocks[1..], cfg, sep)))
  }

  function Pieces(blocks: seq<Block>, cfg: Config, sep: Separator): seq<Piece>
    requires cfg.cap > 0
  {
    if blocks == [] then [] else Walk([], blocks[0].heading, blocks, cfg, sep)
  }

  function Clamp(lo: int, x: int, hi: int): int {
    if (if x < hi then x else hi) < lo then lo else if x < hi then x else hi
  }

  /** The derived sizes for any requested target and overlap. */
  function Sizes(targetTokens: int, overlap: int): (cfg: Config)
    ensures cfg.cap > 0
  {
    var o := Clamp(0, overlap, MAX_TOKENS / 4);
    var t := Clamp(1, targetTokens, MAX_TOKENS - o);
    var tc, oc := ToChars(t), ToChars(o);
    Config(tc, oc, AtLeastOne(tc - oc - 1))
  }

  /** `chunk_blocks` as a function: `Chunker.ChunkBlocks` computes it. */
  function ChunkAll(blocks: seq<Block>, targetTokens: int, overlap: int, sep: Separator): Outcome {
    EmitAll(Chunks([]), Pieces(blocks, Sizes(targetTokens, overlap), sep))
  }

  // ---------- the imperative packer ----------

  function EmitWindows(out: Outcome, ws: seq<Window>, heading: string): Outcome
    decreases |ws|
  {
    if ws == [] then out
    else EmitWindows(Emit(out, BufText(ws[0]), heading, OnePage(Pages(ws[0].added))), ws[1..], heading)
  }

  lemma {:induction false} EmitWindowsPieces(out: Outcome, ws: seq<Window>, heading: string)
    ensures EmitWindows(out, ws, heading) == EmitAll(out, WindowPieces(ws, heading))
    decreases |ws|
  {
    if ws != [] {
      var p := WindowPiece(ws[0], heading);
      assert WindowPieces(ws, heading)[1..] == WindowPieces(ws[1..], heading);
      EmitWindowsPieces(Emit(out, p.repeated + p.added, heading, p.page), ws[1..], heading);
    }
  }

  function EmitBodies(out: Outcome, prefix: string, bodies: seq<string>, heading: string, page: Option<int>): Outcome
    decreases |bodies|
  {
    if bodies == [] then out
    else EmitBodies(Emit(out, prefix + "\n" + bodies[0], heading, page), prefix, bodies[1..], heading, page)
  }

  lemma {:induction false} EmitBodiesAppend(out: Outcome, prefix: string, a: seq<string>, b: seq<string>, heading: string, page: Option<int>)
    ensures EmitBodies(out, prefix, Cat(a, b), heading, page)
         == EmitBodies(EmitBodies(out, prefix, a, heading, page), prefix, b, heading, page)
    decreases |a|
  {
    if a != [] {
      assert (a + b)[1..] == Cat(a[1..], b);
      EmitBodiesAppend(Emit(out, prefix + "\n" + a[0], heading, page), prefix, a[1..], b, heading, page);
    }
  }

  lemma {:induction false} EmitBodiesPieces(out: Outcome, prefix: string, bodies: seq<string>, heading: string, page: Option<int>, first: bool)
    ensures EmitBodies(out, prefix, bodies, heading, page) == EmitAll(out, BodyPieces(prefix, bodies, heading, page, first))
    decreases |bodies|
  {
    if bodies != [] {
      var pieces := BodyPieces(prefix, bodies, heading, page, first);
      assert pieces[1..] == BodyPieces(prefix, bodies[1..], heading, page, false);
      assert "" + (prefix + "\n" + bodies[0]) == prefix + "\n" + bodies[0];
      EmitBodiesPieces(Emit(out, prefix + "\n" + bodies[0], heading, page), prefix, bodies[1..], heading, page, false);
    }
  }

  lemma {:induction false} TextsAppend(units: seq<Unit>, u: Unit)
    ensures Texts(units + [u]) == Texts(units) + [u.text] && Pages(units + [u]) == Pages(units) + [u.page]
  {
    if units == [] {
      assert ([] + [u])[1..] == [];
    } else {
      assert (units + [u])[1..] == units[1..] + [u];
      TextsAppend(units[1..], u);
    }
  }

  /** Adding a unit to the buffer. */
  lemma {:induction false} BufTextMore(w: Window, u: Unit)
    requires w.added != [] ==> BufText(w) != ""
    ensures BufText(w.(added := w.added + [u])) == if BufText(w) != "" then BufText(w) + "\n" + u.text else u.text
  {
    TextsAppend(w.added, u);
    if w.added != [] {
      JoinAppend(Texts(w.added), u.text);
    }
  }

  class Packer {
    var out: Outcome

    constructor ()
      ensures out == Chunks([])
    {
      out := Chunks([]);
    }

    method EmitText(text: string, heading: string, page: Option<int>)
      modifies this
      ensures out == Emit(old(out), text, heading, page)
    {
      var t := Strip(text);
      if out.TooLong? || t == "" { return; }
      var n := EstTokens(|t|);
      if n > MAX_TOKENS {
        out := TooLong(n);
      } else {
        out := Chunks(out.chunks + [Chunk(t, heading, page, n)]);
      }
    }

    method Fill(blocks: seq<Block>, heading: string, cfg: Config)
      requires cfg.cap > 0
      modifies this
      ensures out == EmitAll(old(out), ProsePieces(blocks, heading, cfg))
    {
      var buf, pages, any := "", [], false;
      ghost var w := NO_WINDOW;
      ghost var all := UnitsOf(blocks, cfg.cap);
      for k := 0 to |blocks|
        invariant WindowIs(w, buf, pages, any)
        invariant EmitWindows(out, Windows(w, UnitsOf(blocks[k..], cfg.cap), cfg), heading)
               == EmitWindows(old(out), Windows(NO_WINDOW, all, cfg), heading)
      {
        var b := blocks[k];
        assert blocks[k..][1..] == blocks[k + 1..];
        var parts := SplitLongText(Strip(b.text), cfg.cap);
        SplitLongFits(Strip(b.text), cfg.cap);
        ghost var later := UnitsOf(blocks[k + 1..], cfg.cap);
        buf, pages, any, w := FillParts(parts, b.page, heading, cfg, buf, pages, any, w, later);
      }
      assert blocks[|blocks|..] == [];
      if any {
        EmitText(buf, heading, OnePage(pages));
      }
      EmitWindowsPieces(old(out), Windows(NO_WINDOW, all, cfg), heading);
    }

    method FillTable(t: Table, heading: string, page: Option<int>, cfg: Config)
      modifies this
      ensures out == EmitAll(old(out), TablePieces(t, heading, page, cfg))
    {
      var budget := Budget(t, cfg);
      var cur, curLen := [], 0;
      ghost var all := Bodies([], t.rows, budget);
      for k := 0 to |t.rows|
        invariant curLen == Weight(cur)
        invariant EmitBodies(out, t.prefix, Bodies(cur, t.rows[k..], budget), heading, page)
               == EmitBodies(old(out), t.prefix, all, heading, page)
        invariant k == 0 ==> cur == []
      {
        var row := t.rows[k];
        assert t.rows[k..][0] == row && t.rows[k..][1..] == t.rows[k + 1..];
        var need := |row| + 1;
        if cur != [] && curLen + need > budget {
          EmitText(t.prefix + "\n" + Join(cur), heading, page);
          FlushBody(cur, t.rows[k..], budget);
          cur, curLen := [], 0;
        }
        if need > budget {
          FillRow(row, t.prefix, heading, page, budget, t.rows[k + 1..]);
          continue;
        }
        WeightAppend(cur, row);
        cur := cur + [row];
        curLen := curLen + need;
      }
      assert t.rows[|t.rows|..] == [];
      if cur != [] {
        EmitText(t.prefix + "\n" + Join(cur), heading, page);
        assert [Join(cur)][1..] == [];
      } else if t.rows == [] && Strip(t.prefix) != "" {
        EmitOne(out, Piece("", t.prefix, heading, page));
        EmitText(t.prefix, heading, page);
      }
      EmitBodiesPieces(old(out), t.prefix, all, heading, page, true);
    }

    /** A row too long for the budget, cut up under the header. */
    method FillRow(row: string, prefix: string, heading: string, page: Option<int>, budget: int, ghost rows: seq<string>)
      requires |row| + 1 > budget
      modifies this
      ensures EmitBodies(out, prefix, Bodies([], rows, budget), heading, page)
           == EmitBodies(old(out), prefix, Bodies([], [row] + rows, budget), heading, page)
    {
      var parts := SplitLongText(row, AtLeastOne(budget));
      for i := 0 to |parts|
        invariant EmitBodies(out, prefix, parts[i..], heading, page) == EmitBodies(old(out), prefix, parts, heading, page)
      {
        assert parts[i..][0] == parts[i] && parts[i..][1..] == parts[i + 1..];
        EmitText(prefix + "\n" + parts[i], heading, page);
      }
      assert parts[|parts|..] == [];
      assert ([row] + rows)[1..] == rows;
      EmitBodiesAppend(old(out), prefix, parts, Bodies([], rows, budget), heading, page);
    }

    /** `chunk_blocks`: runs of blocks with one heading; tables on their own, the prose
        between them filled together. */
    method ChunkBlocks(blocks: seq<Block>, targetTokens: int, overlap: int, sep: Separator)
      requires out == Chunks([])
      modifies this
      ensures out == ChunkAll(blocks, targetTokens, overlap, sep)
    {
      var cfg := Sizes(targetTokens, overlap);
      var i := 0;
      assert blocks[0..] == blocks;
      while i < |blocks|
        invariant i <= |blocks|
        invariant EmitAll(out, Pieces(blocks[i..], cfg, sep)) == ChunkAll(blocks, targetTokens, overlap, sep)
      {
        i := ChunkGroup(blocks, i, cfg, sep);
      }
    }

    /** The run of blocks from `start` on that share a heading. */
    method ChunkGroup(blocks: seq<Block>, start: nat, cfg: Config, sep: Separator) returns (i: nat)
      requires cfg.cap > 0 && start < |blocks|
      modifies this
      ensures start < i <= |blocks|
      ensures EmitAll(out, Pieces(blocks[i..], cfg, sep)) == EmitAll(old(out), Pieces(blocks[start..], cfg, sep))
    {
      var heading := blocks[start].heading;
      PiecesStart(blocks[start..], cfg, sep);
      var prose;
      prose, i := WalkHeading(blocks, start, heading, cfg, sep);
      FinishHeading(prose, heading, blocks, i, cfg, sep);
    }

    /** The loop over that run. */
    method WalkHeading(blocks: seq<Block>, start: nat, heading: string, cfg: Config, sep: Separator)
      returns (prose: seq<Block>, i: nat)
      requires cfg.cap > 0 && start < |blocks| && blocks[start].heading == heading
      modifies this
      ensures start < i <= |blocks| && (i < |blocks| ==> blocks[i].heading != heading)
      ensures EmitAll(out, Walk(prose, heading, blocks[i..], cfg, sep))
           == EmitAll(old(out), Walk([], heading, blocks[start..], cfg, sep))
    {
      prose, i := [], start;
      ghost var rest := blocks[start..];
      ghost var goal := EmitAll(out, Walk([], heading, rest, cfg, sep));
      while i < |blocks| && blocks[i].heading == heading
        invariant start <= i <= |blocks| && rest == blocks[i..]
        invariant i == start ==> blocks[i].heading == heading
        invariant EmitAll(out, Walk(prose, heading, rest, cfg, sep)) == goal
        decreases |blocks| - i
      {
        prose := PlaceBlock(blocks[i], prose, heading, cfg, sep, rest);
        rest := rest[1..];
        i := i + 1;
      }
    }

    /** The prose left when the heading ends. */
    method FinishHeading(prose: seq<Block>, heading: string, ghost blocks: seq<Block>, ghost i: nat, cfg: Config, ghost sep: Separator)
      requires cfg.cap > 0 && i <= |blocks| && (i < |blocks| ==> blocks[i].heading != heading)
      modifies this
      ensures EmitAll(out, Pieces(blocks[i..], cfg, sep)) == EmitAll(old(out), Walk(prose, heading, blocks[i..], cfg, sep))
    {
      HeadingStep(out, prose, heading, blocks[i..], cfg, sep);
      Fill(prose, heading, cfg);
    }

    /** One block of a heading: prose is kept, a table is emitted after the prose before it. */
    method PlaceBlock(b: Block, prose0: seq<Block>, heading: string, cfg: Config, sep: Separator, ghost rest: seq<Block>)
      returns (prose: seq<Block>)
      requires cfg.cap > 0 && rest != [] && rest[0] == b && b.heading == heading
      modifies this
      ensures EmitAll(out, Walk(prose, heading, rest[1..], cfg, sep))
           == EmitAll(old(out), Walk(prose0, heading, rest, cfg, sep))
    {
      var split := AsTable(b, cfg, sep);
      if split.None? {
        prose := prose0 + [b];
      } else {
        TableStep(out, prose0, heading, rest, cfg, sep);
        Fill(prose0, heading, cfg);
        prose := [];
        FillTable(split.value, heading, b.page, cfg);
      }
    }

    /** The inner loop of `_fill`, over the parts of one block. */
    method FillParts(parts: seq<string>, page: Option<int>, heading: string, cfg: Config,
                     buf0: string, pages0: seq<Option<int>>, any0: bool, ghost w0: Window, ghost later: seq<Unit>)
      returns (buf: string, pages: seq<Option<int>>, any: bool, ghost w: Window)
      requires cfg.cap > 0 && WindowIs(w0, buf0, pages0, any0) && Nonempty(parts)
      modifies this
      ensures WindowIs(w, buf, pages, any)
      ensures EmitWindows(out, Windows(w, later, cfg), heading)
           == EmitWindows(old(out), Windows(w0, Cat(Tagged(parts, page), later), cfg), heading)
    {
      buf, pages, any, w := buf0, pages0, any0, w0;
      for j := 0 to |parts|
        invariant WindowIs(w, buf, pages, any)
        invariant EmitWindows(out, Windows(w, Cat(Tagged(parts[j..], page), later), cfg), heading)
               == EmitWindows(old(out), Windows(w0, Cat(Tagged(parts, page), later), cfg), heading)
      {
        TaggedStep(parts, page, later, j);
        EmitStep(out, w, Cat(Tagged(parts[j..], page), later), cfg, heading);
        buf, pages, any, w := FillUnit(parts[j], page, heading, cfg, buf, pages, any, w);
      }
    }

    /** One turn of that loop. */
    method FillUnit(unit: string, page: Option<int>, heading: string, cfg: Config,
                    buf0: string, pages0: seq<Option<int>>, any0: bool, ghost w0: Window)
      returns (buf: string, pages: seq<Option<int>>, any: bool, ghost w: Window)
      requires WindowIs(w0, buf0, pages0, any0) && unit != ""
      modifies this
      ensures w == AddUnit(w0, Unit(unit, page), cfg) && WindowIs(w, buf, pages, any)
      ensures out == AfterUnit(old(out), w0, Unit(unit, page), cfg, heading)
    {
      buf, pages, any, w := buf0, pages0, any0, w0;
      ghost var u := Unit(unit, page);
      if buf != "" && |buf| + 1 + |unit| > cfg.tc {
        EmitText(buf, heading, OnePage(pages));
        buf, pages, any := Tail(buf, cfg.oc), [], false;
        w := Window(buf, []);
        OverlapOnly(buf, u);
      }
      AddedIs(w, buf, pages, any, u);
      pages := pages + [page];
      buf := if buf != "" then buf + "\n" + unit else unit;
      any := true;
      w := w.(added := w.added + [u]);
    }
  }

  lemma {:induction false} OverlapOnly(overlap: string, u: Unit)
    ensures WindowIs(Window(overlap, []), overlap, [], false)
    ensures [] + [u] == [u]
  {
    assert AddedText(Window(overlap, [])) == "" + "";
    assert overlap + ("" + "") == overlap;
  }

  lemma {:induction false} AddedIs(w: Window, buf: string, pages: seq<Option<int>>, any: bool, u: Unit)
    requires WindowIs(w, buf, pages, any) && u.text != ""
    ensures WindowIs(w.(added := w.added + [u]), if buf != "" then buf + "\n" + u.text else u.text, pages + [u.page], true)
  {
    BufTextMore(w, u);
    TextsAppend(w.added, u);
  }

  lemma {:induction false} PiecesStart(blocks: seq<Block>, cfg: Config, sep: Separator)
    requires cfg.cap > 0 && blocks != []
    ensures Pieces(blocks, cfg, sep) == Walk([], blocks[0].heading, blocks, cfg, sep)
  {
  }

  lemma {:induction false} FlushBody(cur: seq<string>, rows: seq<string>, budget: int)
    requires cur != [] && rows != [] && Weight(cur) + |rows[0]| + 1 > budget
    ensures Bodies(cur, rows, budget) != []
    ensures Bodies(cur, rows, budget)[0] == Join(cur) && Bodies(cur, rows, budget)[1..] == Bodies([], rows, budget)
  {
  }

  lemma {:induction false} TableStep(out: Outcome, prose: seq<Block>, heading: string, blocks: seq<Block>, cfg: Config, sep: Separator)
    requires cfg.cap > 0 && blocks != [] && blocks[0].heading == heading && AsTable(blocks[0], cfg, sep).Some?
    ensures EmitAll(out, Walk(prose, heading, blocks, cfg, sep))
         == EmitAll(EmitAll(EmitAll(out, ProsePieces(prose, heading, cfg)),
                            TablePieces(AsTable(blocks[0], cfg, sep).value, heading, blocks[0].page, cfg)),
                    Walk([], heading, blocks[1..], cfg, sep))
  {
    var a, b := ProsePieces(prose, heading, cfg), TablePieces(AsTable(blocks[0], cfg, sep).value, heading, blocks[0].page, cfg);
    var c := Walk([], heading, blocks[1..], cfg, sep);
    EmitAllAppend(out, a, Cat(b, c));
    EmitAllAppend(EmitAll(out, a), b, c);
  }

  lemma {:induction false} HeadingStep(out: Outcome, prose: seq<Block>, heading: string, blocks: seq<Block>, cfg: Config, sep: Separator)
    requires cfg.cap > 0 && (blocks == [] || blocks[0].heading != heading)
    ensures EmitAll(out, Walk(prose, heading, blocks, cfg, sep))
         == EmitAll(EmitAll(out, ProsePieces(prose, heading, cfg)), Pieces(blocks, cfg, sep))
  {
    if blocks != [] {
      EmitAllAppend(out, ProsePieces(prose, heading, cfg), Walk([], blocks[0].heading, blocks, cfg, sep));
    }
  }

  function AfterUnit(out: Outcome, w: Window, u: Unit, cfg: Config, heading: string): Outcome {
    if Flushes(w, u, cfg) then Emit(out, BufText(w), heading, OnePage(Pages(w.added))) else out
  }

  lemma {:induction false} EmitStep(out: Outcome, w: Window, units: seq<Unit>, cfg: Config, heading: string)
    requires units != []
    ensures EmitWindows(out, Windows(w, units, cfg), heading)
         == EmitWindows(AfterUnit(out, w, units[0], cfg, heading), Windows(AddUnit(w, units[0], cfg), units[1..], cfg), heading)
  {
    var rest := Windows(AddUnit(w, units[0], cfg), units[1..], cfg);
    assert ([w] + rest)[1..] == rest;
  }

  lemma {:induction false} TaggedStep(parts: seq<string>, page: Option<int>, later: seq<Unit>, j: nat)
    requires j < |parts|
    ensures var units := Cat(Tagged(parts[j..], page), later);
      units != [] && units[0] == Unit(parts[j], page) && units[1..] == Cat(Tagged(parts[j + 1..], page), later)
  {
    assert parts[j..][1..] == parts[j + 1..];
  }

  ghost predicate Nonempty(parts: seq<string>) {
    forall i :: 0 <= i < |parts| ==> parts[i] != ""
  }

  lemma {:induction false} CutsFit(piece: string, cap: nat)
    requires cap > 0
    ensures Fit(Cuts(piece, cap), cap)
    decreases |piece|
  {
    if |piece| > cap {
      CutsFit(piece[cap..], cap);
    }
  }

  /** Parts are never empty and never longer than `cap`. */
  ghost predicate Fit(parts: seq<string>, cap: nat) {
    forall i :: 0 <= i < |parts| ==> 0 < |parts[i]| <= cap
  }

  lemma {:induction false} PartsFit(buf: string, pieces: seq<string>, cap: nat)
    requires cap > 0 && |buf| <= cap
    ensures Fit(Parts(buf, pieces, cap), cap)
    decreases |pieces|
  {
    if pieces != [] {
      var p := pieces[0];
      CutsFit(p, cap);
      if Overfull(buf, p, cap) {
        PartsFit(LastCut(p, cap), pieces[1..], cap);
      } else {
        if buf == "" {
          assert buf + LastCut(p, cap) == LastCut(p, cap);
        }
        PartsFit(buf + LastCut(p, cap), pieces[1..], cap);
      }
    }
  }

  lemma {:induction false} SplitLongFits(text: string, cap: nat)
    requires cap > 0
    ensures Fit(SplitLong(text, cap), cap)
  {
    PartsFit("", Sentences(text), cap);
  }

  /** The source's variables `buf`, `pages`, `fresh` describe window `w`. */
  ghost predicate WindowIs(w: Window, buf: string, pages: seq<Option<int>>, any: bool) {
    && buf == BufText(w) && pages == Pages(w.added) && (any <==> w.added != [])
    && (w.added != [] ==> buf != "")
  }
}
