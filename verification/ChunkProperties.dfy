/** What the chunker guarantees, for every document and every requested size. */
module ChunkProperties {
  import opened PyText
  import opened Chunker

  // ---------- the token bound ----------

  ghost predicate Short(pieces: seq<Piece>, n: int) {
    forall i :: 0 <= i < |pieces| ==> |pieces[i].repeated| + |pieces[i].added| <= n
  }

  lemma {:induction false} ShortCat(a: seq<Piece>, b: seq<Piece>, n: int)
    requires Short(a, n) && Short(b, n)
    ensures Short(Cat(a, b), n)
  {
  }

  function Larger(a: int, b: int): int { if a < b then b else a }

  /** The longest text handed to `_emit`, in characters. */
  function Longest(cfg: Config): int { Larger(cfg.tc, cfg.oc + 1 + cfg.cap) }

  ghost predicate UnitsFit(units: seq<Unit>, cap: nat) {
    forall i :: 0 <= i < |units| ==> 0 < |units[i].text| <= cap
  }

  lemma {:induction false} TaggedFit(parts: seq<string>, page: Option<int>, cap: nat)
    requires Fit(parts, cap)
    ensures UnitsFit(Tagged(parts, page), cap)
  {
    if parts != [] {
      TaggedFit(parts[1..], page, cap);
    }
  }

  lemma {:induction false} UnitsOfFit(blocks: seq<Block>, cap: nat)
    requires cap > 0
    ensures UnitsFit(UnitsOf(blocks, cap), cap)
  {
    if blocks != [] {
      SplitLongFits(Strip(blocks[0].text), cap);
      TaggedFit(SplitLong(Strip(blocks[0].text), cap), blocks[0].page, cap);
      UnitsOfFit(blocks[1..], cap);
    }
  }

  /** A buffer in use is not empty, and within the bound. */
  ghost predicate Bounded(w: Window, cfg: Config) {
    && |BufText(w)| <= Longest(cfg)
    && (w.added != [] ==> BufText(w) != "")
  }

  lemma {:induction false} AddUnitBounded(w: Window, u: Unit, cfg: Config)
    requires Bounded(w, cfg) && 0 < |u.text| <= cfg.cap
    ensures Bounded(AddUnit(w, u, cfg), cfg)
  {
    BufTextMore(w, u);
    var n := Window(Tail(BufText(w), cfg.oc), []);
    BufTextMore(n, u);
    assert n.(added := n.added + [u]) == Window(n.overlap, [u]);
    assert BufText(n) == n.overlap;
  }

  ghost predicate WindowsBounded(ws: seq<Window>, cfg: Config) {
    forall i :: 0 <= i < |ws| ==> |BufText(ws[i])| <= Longest(cfg)
  }

  lemma {:induction false} WindowsAreBounded(w: Window, units: seq<Unit>, cfg: Config)
    requires Bounded(w, cfg) && UnitsFit(units, cfg.cap)
    ensures WindowsBounded(Windows(w, units, cfg), cfg)
    decreases |units|
  {
    if units != [] {
      AddUnitBounded(w, units[0], cfg);
      WindowsAreBounded(AddUnit(w, units[0], cfg), units[1..], cfg);
    }
  }

  lemma {:induction false} WindowPiecesShort(ws: seq<Window>, heading: string, cfg: Config)
    requires WindowsBounded(ws, cfg)
    ensures Short(WindowPieces(ws, heading), Longest(cfg))
  {
    if ws != [] {
      WindowPiecesShort(ws[1..], heading, cfg);
      assert |BufText(ws[0])| <= Longest(cfg);
    }
  }

  lemma {:induction false} ProseShort(blocks: seq<Block>, heading: string, cfg: Config)
    requires cfg.cap > 0
    ensures Short(ProsePieces(blocks, heading, cfg), Longest(cfg))
  {
    UnitsOfFit(blocks, cfg.cap);
    WindowsAreBounded(NO_WINDOW, UnitsOf(blocks, cfg.cap), cfg);
    WindowPiecesShort(Windows(NO_WINDOW, UnitsOf(blocks, cfg.cap), cfg), heading, cfg);
  }

  ghost predicate BodiesFit(bodies: seq<string>, budget: int) {
    forall i :: 0 <= i < |bodies| ==> |bodies[i]| <= budget
  }

  lemma {:induction false} BodiesAreShort(cur: seq<string>, rows: seq<string>, budget: int)
    requires budget > 0 && Weight(cur) <= budget
    ensures BodiesFit(Bodies(cur, rows, budget), budget)
    decreases |rows|, |cur|
  {
    if cur != [] {
      JoinWeight(cur);
    }
    if rows != [] {
      var row := rows[0];
      if cur != [] && Weight(cur) + |row| + 1 > budget {
        BodiesAreShort([], rows, budget);
      } else if |row| + 1 > budget {
        SplitLongFits(row, budget);
        BodiesAreShort(cur, rows[1..], budget);
      } else {
        WeightAppend(cur, row);
        BodiesAreShort(cur + [row], rows[1..], budget);
      }
    }
  }

  lemma {:induction false} BodyPiecesShort(prefix: string, bodies: seq<string>, heading: string, page: Option<int>, first: bool, budget: int)
    requires BodiesFit(bodies, budget)
    ensures Short(BodyPieces(prefix, bodies, heading, page, first), |prefix| + 1 + budget)
    decreases |bodies|
  {
    if bodies != [] {
      BodyPiecesShort(prefix, bodies[1..], heading, page, false, budget);
    }
  }

  lemma {:induction false} TableShort(t: Table, heading: string, page: Option<int>, cfg: Config)
    requires Budget(t, cfg) >= MIN_ROW_BUDGET
    ensures Short(TablePieces(t, heading, page, cfg), cfg.tc)
  {
    if t.rows != [] {
      BodiesAreShort([], t.rows, Budget(t, cfg));
      BodyPiecesShort(t.prefix, Bodies([], t.rows, Budget(t, cfg)), heading, page, true, Budget(t, cfg));
    }
  }

  lemma {:induction false} ShortMore(pieces: seq<Piece>, m: int, n: int)
    requires Short(pieces, m) && m <= n
    ensures Short(pieces, n)
  {
  }

  lemma {:induction false} WalkShort(prose: seq<Block>, heading: string, blocks: seq<Block>, cfg: Config, sep: Separator)
    requires cfg.cap > 0
    ensures Short(Walk(prose, heading, blocks, cfg, sep), Longest(cfg))
    decreases |blocks|, if blocks != [] && blocks[0].heading != heading then 1 else 0
  {
    ProseShort(prose, heading, cfg);
    if blocks == [] {
    } else if blocks[0].heading != heading {
      WalkShort([], blocks[0].heading, blocks, cfg, sep);
      ShortCat(ProsePieces(prose, heading, cfg), Walk([], blocks[0].heading, blocks, cfg, sep), Longest(cfg));
    } else {
      match AsTable(blocks[0], cfg, sep)
      case None => WalkShort(prose + [blocks[0]], heading, blocks[1..], cfg, sep);
      case Some(t) =>
        var table, rest := TablePieces(t, heading, blocks[0].page, cfg), Walk([], heading, blocks[1..], cfg, sep);
        TableShort(t, heading, blocks[0].page, cfg);
        ShortMore(table, cfg.tc, Longest(cfg));
        WalkShort([], heading, blocks[1..], cfg, sep);
        ShortCat(table, rest, Longest(cfg));
        ShortCat(ProsePieces(prose, heading, cfg), Cat(table, rest), Longest(cfg));
    }
  }

  /** The chunk a piece becomes; none if it is blank. */
  function ChunkOf(p: Piece): seq<Chunk> {
    var t := Strip(p.repeated + p.added);
    if t == "" then [] else [Chunk(t, p.heading, p.page, EstTokens(|t|))]
  }

  function ChunksOf(pieces: seq<Piece>): seq<Chunk> {
    if pieces == [] then [] else Cat(ChunkOf(pieces[0]), ChunksOf(pieces[1..]))
  }

  /** 768 characters are 480 tokens: short pieces are emitted, never refused. */
  lemma {:induction false} EmitAllChunks(cs: seq<Chunk>, pieces: seq<Piece>)
    requires Short(pieces, 768)
    ensures EmitAll(Chunks(cs), pieces) == Chunks(Cat(cs, ChunksOf(pieces)))
    decreases |pieces|
  {
    if pieces == [] {
      assert Cat(cs, []) == cs;
    } else {
      var p := pieces[0];
      var t := Strip(p.repeated + p.added);
      assert |t| <= |p.repeated| + |p.added|;
      assert EstTokens(|t|) <= MAX_TOKENS;
      EmitChunk(cs, p);
      EmitAllChunks(Cat(cs, ChunkOf(p)), pieces[1..]);
      CatAssociative(cs, ChunkOf(p), ChunksOf(pieces[1..]));
    }
  }

  lemma {:induction false} EmitChunk(cs: seq<Chunk>, p: Piece)
    requires EstTokens(|Strip(p.repeated + p.added)|) <= MAX_TOKENS
    ensures Emit(Chunks(cs), p.repeated + p.added, p.heading, p.page) == Chunks(Cat(cs, ChunkOf(p)))
  {
    assert cs == [] ==> cs + ChunkOf(p) == ChunkOf(p);
    assert ChunkOf(p) == [] ==> cs + ChunkOf(p) == cs;
  }

  lemma {:induction false} SizesBound(targetTokens: int, overlap: int)
    ensures var cfg := Sizes(targetTokens, overlap);
      && Longest(cfg) == Larger(cfg.tc, cfg.oc + 2) <= 768
      && cfg.cap == AtLeastOne(cfg.tc - cfg.oc - 1)
  {
  }

  /** The bound: whatever sizes are requested, no text handed to `_emit` is longer than
      `max(tc, oc + 2)` characters, so the exception is never raised. */
  lemma {:induction false} NeverTooLong(blocks: seq<Block>, targetTokens: int, overlap: int, sep: Separator)
    ensures var cfg := Sizes(targetTokens, overlap);
      && Short(Pieces(blocks, cfg, sep), Larger(cfg.tc, cfg.oc + 2))
      && ChunkAll(blocks, targetTokens, overlap, sep) == Chunks(ChunksOf(Pieces(blocks, cfg, sep)))
  {
    var cfg := Sizes(targetTokens, overlap);
    SizesBound(targetTokens, overlap);
    if blocks != [] {
      WalkShort([], blocks[0].heading, blocks, cfg, sep);
    }
    ShortMore(Pieces(blocks, cfg, sep), Longest(cfg), 768);
    EmitAllChunks([], Pieces(blocks, cfg, sep));
  }

  ghost predicate TokensBounded(cs: seq<Chunk>) {
    forall i :: 0 <= i < |cs| ==> cs[i].text != "" && cs[i].tokens == EstTokens(|cs[i].text|) <= MAX_TOKENS
  }

  lemma {:induction false} ChunksOfBounded(pieces: seq<Piece>)
    requires Short(pieces, 768)
    ensures TokensBounded(ChunksOf(pieces))
  {
    if pieces != [] {
      ChunksOfBounded(pieces[1..]);
      var p := pieces[0];
      assert |Strip(p.repeated + p.added)| <= |p.repeated| + |p.added|;
    }
  }

  /** Every chunk of every document fits the 480-token window. */
  lemma {:induction false} ChunksFitTheWindow(blocks: seq<Block>, targetTokens: int, overlap: int, sep: Separator)
    ensures ChunkAll(blocks, targetTokens, overlap, sep).Chunks?
    ensures TokensBounded(ChunkAll(blocks, targetTokens, overlap, sep).chunks)
  {
    var cfg := Sizes(targetTokens, overlap);
    NeverTooLong(blocks, targetTokens, overlap, sep);
    SizesBound(targetTokens, overlap);
    ShortMore(Pieces(blocks, cfg, sep), Larger(cfg.tc, cfg.oc + 2), 768);
    ChunksOfBounded(Pieces(blocks, cfg, sep));
  }

  // ---------- the overlap slice ----------

  /** The slice index `len(buf) - overlap` is positive whenever the target exceeds the
      overlap by more than one character; `ChunkOverlap` tells exactly when it is negative. */
  lemma {:induction false} SliceIndexOk(w: Window, u: Unit, cfg: Config)
    requires cfg.cap == AtLeastOne(cfg.tc - cfg.oc - 1) && 0 < |u.text| <= cfg.cap
    requires cfg.tc > cfg.oc + 1 && Flushes(w, u, cfg)
    ensures |BufText(w)| - cfg.oc > 0
    ensures cfg.oc > 0 ==> Tail(BufText(w), cfg.oc) == BufText(w)[|BufText(w)| - cfg.oc..]
  {
  }
}
