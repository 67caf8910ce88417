/** When the overlap of a new buffer is cut with a negative index
    (tools/embed_service.py:1154-1165 and 1230-1251). */
module ChunkOverlap {
  import opened PyText
  import opened Chunker
  import opened ChunkProperties

  /** Filling flushes a buffer shorter than the overlap, so `len(buf) - overlap` is negative. */
  predicate FlushesShort(w: Window, units: seq<Unit>, cfg: Config)
    decreases |units|
  {
    units != []
    && ((Flushes(w, units[0], cfg) && |BufText(w)| < cfg.oc)
        || FlushesShort(AddUnit(w, units[0], cfg), units[1..], cfg))
  }

  predicate FillsShort(prose: seq<Block>, cfg: Config)
    requires cfg.cap > 0
  {
    FlushesShort(NO_WINDOW, UnitsOf(prose, cfg.cap), cfg)
  }

  /** Some prose of the document does, the blocks taken as `Chunker.Walk` takes them. */
  predicate WalksShort(prose: seq<Block>, heading: string, blocks: seq<Block>, cfg: Config, sep: Separator)
    requires cfg.cap > 0
    decreases |blocks|, if blocks != [] && blocks[0].heading != heading then 1 else 0
  {
    if blocks == [] then FillsShort(prose, cfg)
    else if blocks[0].heading != heading then
      FillsShort(prose, cfg) || WalksShort([], blocks[0].heading, blocks, cfg, sep)
    else
      match AsTable(blocks[0], cfg, sep)
      case None => WalksShort(prose + [blocks[0]], heading, blocks[1..], cfg, sep)
      case Some(_) => FillsShort(prose, cfg) || WalksShort([], heading, blocks[1..], cfg, sep)
  }

  predicate GoesNegative(blocks: seq<Block>, cfg: Config, sep: Separator)
    requires cfg.cap > 0
  {
    blocks != [] && WalksShort([], blocks[0].heading, blocks, cfg, sep)
  }

  // ---------- it never does ----------

  /** The sizes for which no document makes the index negative. */
  predicate Roomy(cfg: Config) {
    cfg.oc < cfg.tc || (cfg.oc == cfg.tc && cfg.tc % 2 == 1)
  }

  /** When target and overlap are equal, units have one character and every buffer an odd
      number of them. */
  predicate OddBuffer(w: Window, cfg: Config) {
    && (w.added != [] ==> BufText(w) != "")
    && (cfg.oc == cfg.tc ==> BufText(w) == "" || |BufText(w)| % 2 == 1)
  }

  lemma {:induction false} FlushIsLong(w: Window, u: Unit, cfg: Config)
    requires cfg.cap == AtLeastOne(cfg.tc - cfg.oc - 1) && 0 < |u.text| <= cfg.cap
    requires Roomy(cfg) && OddBuffer(w, cfg) && Flushes(w, u, cfg)
    ensures |BufText(w)| >= cfg.oc
  {
  }

  /** The length of a buffer after a unit. */
  lemma {:induction false} LengthAfter(w: Window, u: Unit, cfg: Config)
    requires (w.added != [] ==> BufText(w) != "") && u.text != ""
    requires Flushes(w, u, cfg) ==> |BufText(w)| >= cfg.oc
    ensures var n := if Flushes(w, u, cfg) then cfg.oc else |BufText(w)|;
      |BufText(AddUnit(w, u, cfg))| == if n == 0 then |u.text| else n + 1 + |u.text|
  {
    if Flushes(w, u, cfg) {
      var n := Window(Tail(BufText(w), cfg.oc), []);
      assert BufText(n) == n.overlap;
      BufTextMore(n, u);
      assert n.(added := n.added + [u]) == Window(n.overlap, [u]);
    } else {
      BufTextMore(w, u);
    }
  }

  lemma {:induction false} AddUnitOdd(w: Window, u: Unit, cfg: Config)
    requires cfg.cap == AtLeastOne(cfg.tc - cfg.oc - 1) && 0 < |u.text| <= cfg.cap
    requires Roomy(cfg) && OddBuffer(w, cfg)
    ensures OddBuffer(AddUnit(w, u, cfg), cfg)
  {
    if Flushes(w, u, cfg) {
      FlushIsLong(w, u, cfg);
    }
    LengthAfter(w, u, cfg);
  }

  lemma {:induction false} NeverShort(w: Window, units: seq<Unit>, cfg: Config)
    requires cfg.cap == AtLeastOne(cfg.tc - cfg.oc - 1) && UnitsFit(units, cfg.cap)
    requires Roomy(cfg) && OddBuffer(w, cfg)
    ensures !FlushesShort(w, units, cfg)
    decreases |units|
  {
    if units != [] {
      if Flushes(w, units[0], cfg) {
        FlushIsLong(w, units[0], cfg);
      }
      AddUnitOdd(w, units[0], cfg);
      NeverShort(AddUnit(w, units[0], cfg), units[1..], cfg);
    }
  }

  lemma {:induction false} FillNeverShort(prose: seq<Block>, cfg: Config)
    requires cfg.cap == AtLeastOne(cfg.tc - cfg.oc - 1) && Roomy(cfg)
    ensures !FillsShort(prose, cfg)
  {
    UnitsOfFit(prose, cfg.cap);
    NeverShort(NO_WINDOW, UnitsOf(prose, cfg.cap), cfg);
  }

  lemma {:induction false} WalkNeverShort(prose: seq<Block>, heading: string, blocks: seq<Block>, cfg: Config, sep: Separator)
    requires cfg.cap == AtLeastOne(cfg.tc - cfg.oc - 1) && Roomy(cfg)
    ensures !WalksShort(prose, heading, blocks, cfg, sep)
    decreases |blocks|, if blocks != [] && blocks[0].heading != heading then 1 else 0
  {
    FillNeverShort(prose, cfg);
    if blocks != [] {
      if blocks[0].heading != heading {
        WalkNeverShort([], blocks[0].heading, blocks, cfg, sep);
      } else {
        match AsTable(blocks[0], cfg, sep)
        case None => WalkNeverShort(prose + [blocks[0]], heading, blocks[1..], cfg, sep);
        case Some(_) => WalkNeverShort([], heading, blocks[1..], cfg, sep);
      }
    }
  }

  // ---------- a document that does ----------

  function Copies(b: Block, n: nat): seq<Block> {
    if n == 0 then [] else [b] + Copies(b, n - 1)
  }

  function CopiedUnits(u: Unit, n: nat): seq<Unit> {
    if n == 0 then [] else [u] + CopiedUnits(u, n - 1)
  }

  /** A block of one character, which is one unit and no table. */
  predicate OneCharacter(b: Block, cfg: Config, sep: Separator) {
    |b.text| == 1 && SplitLong(Strip(b.text), 1) == [b.text] && AsTable(b, cfg, sep) == None
  }

  lemma {:induction false} CopiesAreUnits(b: Block, n: nat, cap: nat)
    requires cap > 0 && SplitLong(Strip(b.text), cap) == [b.text]
    ensures UnitsOf(Copies(b, n), cap) == CopiedUnits(Unit(b.text, b.page), n)
  {
    if n > 0 {
      CopiesAreUnits(b, n - 1, cap);
      UnitsOfFirst(b, Copies(b, n - 1), cap);
      OneTagged(b.text, b.page);
    }
  }

  lemma {:induction false} UnitsOfFirst(b: Block, rest: seq<Block>, cap: nat)
    requires cap > 0
    ensures UnitsOf([b] + rest, cap) == Cat(Tagged(SplitLong(Strip(b.text), cap), b.page), UnitsOf(rest, cap))
  {
    assert ([b] + rest)[1..] == rest;
  }

  lemma {:induction false} OneTagged(part: string, page: Option<int>)
    ensures Tagged([part], page) == [Unit(part, page)]
  {
    assert [part][1..] == [];
    assert [Unit(part, page)] + [] == [Unit(part, page)];
  }

  /** Blocks under one heading, none of them a table. */
  predicate AllProse(blocks: seq<Block>, heading: string, cfg: Config, sep: Separator) {
    blocks == []
    || (blocks[0].heading == heading && AsTable(blocks[0], cfg, sep) == None && AllProse(blocks[1..], heading, cfg, sep))
  }

  lemma {:induction false} ProseWalks(prose: seq<Block>, heading: string, blocks: seq<Block>, cfg: Config, sep: Separator)
    requires cfg.cap > 0 && AllProse(blocks, heading, cfg, sep)
    ensures WalksShort(prose, heading, blocks, cfg, sep) == FillsShort(prose + blocks, cfg)
    decreases |blocks|
  {
    if blocks == [] {
      assert prose + [] == prose;
    } else {
      var b, rest := blocks[0], blocks[1..];
      ProseWalks(prose + [b], heading, rest, cfg, sep);
      assert (prose + [b]) + rest == prose + blocks;
    }
  }

  lemma {:induction false} CopiesAreProse(b: Block, n: nat, cfg: Config, sep: Separator)
    requires AsTable(b, cfg, sep) == None
    ensures AllProse(Copies(b, n), b.heading, cfg, sep)
  {
    if n > 0 {
      CopiesAreProse(b, n - 1, cfg, sep);
      assert ([b] + Copies(b, n - 1))[1..] == Copies(b, n - 1);
    }
  }

  lemma {:induction false} UnitFlushes(w: Window, u: Unit, rest: seq<Unit>, cfg: Config)
    ensures FlushesShort(w, [u] + rest, cfg) <==>
      (Flushes(w, u, cfg) && |BufText(w)| < cfg.oc) || FlushesShort(AddUnit(w, u, cfg), rest, cfg)
  {
    assert ([u] + rest)[1..] == rest;
  }

  /** One character after the other, the buffer grows by two until it is full, and then it
      is shorter than the overlap. */
  lemma {:induction false} CopiesFlushShort(w: Window, u: Unit, n: nat, cfg: Config)
    requires !Roomy(cfg) && cfg.tc > 0 && w.added != [] && |u.text| == 1
    requires |BufText(w)| % 2 == 1 && |BufText(w)| <= cfg.tc
    requires 2 * n + |BufText(w)| > cfg.tc + 1
    ensures FlushesShort(w, CopiedUnits(u, n), cfg)
    decreases n
  {
    if n > 0 {
      if !Flushes(w, u, cfg) {
        LengthAfter(w, u, cfg);
        CopiesFlushShort(AddUnit(w, u, cfg), u, n - 1, cfg);
      }
      UnitFlushes(w, u, CopiedUnits(u, n - 1), cfg);
    }
  }

  lemma {:induction false} FirstUnit(u: Unit, rest: seq<Unit>, cfg: Config)
    requires FlushesShort(Window("", [u]), rest, cfg)
    ensures FlushesShort(NO_WINDOW, [u] + rest, cfg)
  {
    assert ([u] + rest)[1..] == rest;
    assert BufText(NO_WINDOW) == "";
    assert NO_WINDOW.(added := NO_WINDOW.added + [u]) == Window("", [u]);
  }

  lemma {:induction false} OneUnitText(u: Unit)
    ensures BufText(Window("", [u])) == u.text
  {
    BufTextMore(NO_WINDOW, u);
    assert BufText(NO_WINDOW) == "";
    assert NO_WINDOW.(added := NO_WINDOW.added + [u]) == Window("", [u]);
  }

  lemma {:induction false} CopiesFillShort(b: Block, n: nat, cfg: Config)
    requires !Roomy(cfg) && cfg.tc > 0 && n >= cfg.tc + 1
    requires cfg.cap > 0 && SplitLong(Strip(b.text), cfg.cap) == [b.text] && |b.text| == 1
    ensures FillsShort(Copies(b, n + 1), cfg)
  {
    CopiesAreUnits(b, n + 1, cfg.cap);
    UnitsFlushShort(Unit(b.text, b.page), n, cfg);
  }

  lemma {:induction false} UnitsFlushShort(u: Unit, n: nat, cfg: Config)
    requires !Roomy(cfg) && cfg.tc > 0 && n >= cfg.tc + 1 && |u.text| == 1
    ensures FlushesShort(NO_WINDOW, CopiedUnits(u, n + 1), cfg)
  {
    OneUnitText(u);
    CopiesFlushShort(Window("", [u]), u, n, cfg);
    FirstUnit(u, CopiedUnits(u, n), cfg);
  }

  /** The document of one letter in every block. */
  lemma {:induction false} CopiesGoNegative(b: Block, cfg: Config, sep: Separator)
    requires !Roomy(cfg) && cfg.tc > 0 && cfg.cap == 1 && OneCharacter(b, cfg, sep)
    ensures GoesNegative(Copies(b, cfg.tc + 2), cfg, sep)
  {
    var blocks := Copies(b, cfg.tc + 2);
    CopiesFillShort(b, cfg.tc + 1, cfg);
    CopiesAreProse(b, cfg.tc + 2, cfg, sep);
    ProseWalks([], b.heading, blocks, cfg, sep);
    assert [] + blocks == blocks;
  }

  const LETTER := Block("a", "", None)

  lemma {:induction false} LetterIsOneUnit()
    ensures Strip("a") == "a" && SplitLong("a", 1) == ["a"]
  {
    assert FirstEnd("a"[1..]) == 0;
    assert FirstEnd("a") == 1;
    assert Sentences("a") == ["a"];
    assert ["a"][1..] == [];
    assert Cuts("a", 1) == [] && LastCut("a", 1) == "a";
    assert "" + "a" == "a";
    assert Parts("a", [], 1) == ["a"];
  }

  lemma {:induction false} LetterIsOneCharacter(cfg: Config, sep: Separator)
    ensures OneCharacter(LETTER, cfg, sep)
  {
    LetterIsOneUnit();
    assert FirstFeed("a"[1..]) == 0;
    assert FirstFeed("a") == 1;
    assert Lines("a") == ["a"];
    assert SeparatorRow(["a"], 1, sep) == None;
    assert SeparatorRow(["a"], 0, sep) == None;
  }

  /** Exactly when the index goes negative: some document makes it so if and only if the
      overlap has more characters than the target, or just as many and an even number. */
  lemma {:induction false} SliceIndexExact(targetTokens: int, overlap: int, sep: Separator)
    ensures var cfg := Sizes(targetTokens, overlap);
      (exists blocks: seq<Block> :: GoesNegative(blocks, cfg, sep)) <==> cfg.oc > cfg.tc || (cfg.oc == cfg.tc && cfg.tc % 2 == 0)
  {
    var cfg := Sizes(targetTokens, overlap);
    SizesBound(targetTokens, overlap);
    if Roomy(cfg) {
      forall blocks: seq<Block>
        ensures !GoesNegative(blocks, cfg, sep)
      {
        NeverNegative(blocks, cfg, sep);
      }
    } else {
      LetterIsOneCharacter(cfg, sep);
      CopiesGoNegative(LETTER, cfg, sep);
    }
  }

  lemma {:induction false} NeverNegative(blocks: seq<Block>, cfg: Config, sep: Separator)
    requires cfg.cap == AtLeastOne(cfg.tc - cfg.oc - 1) && Roomy(cfg)
    ensures !GoesNegative(blocks, cfg, sep)
  {
    if blocks != [] {
      WalkNeverShort([], blocks[0].heading, blocks, cfg, sep);
    }
  }
}
