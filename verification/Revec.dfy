/** Filling in the missing vectors of the knowledge base and advancing the documents that
    have become complete (tools/embed_service.py:1340-1474). */
module Revec {

  datatype Option<+T> = None | Some(value: T)

  type Vector = seq<real>

  datatype Chunk = Chunk(id: int, doc: string, folder: string, heading: string, body: string,
                         embeddingText: string, recipe: int, embedding: Option<Vector>)

  /** `effective`: today lies between the document's effective dates. */
  datatype Doc = Doc(name: string, status: string, enabled: bool, effective: bool, error: string)

  type Docs = map<string, Doc>

  /** What the embedding service answers to the k-th request: a failure, or some vectors. */
  type Embedder = (nat, seq<string>) -> Option<seq<Vector>>

  const RECIPE := 1
  const DOWNGRADE := "向量服务不可用，稍后可重建"

  function OrElse(s: string, other: string): string { if s == "" then other else s }

  /** `kb_embedding_text`. */
  function EmbeddingText(name: string, folder: string, heading: string, body: string): string {
    "文件：" + name + "\n目录：" + OrElse(folder, "/") + "\n章节：" + OrElse(heading, "正文") + "\n\n" + body
  }

  // ---------- the statements ----------

  predicate Open(docs: Docs, id: string) {
    id in docs && docs[id].status == "chunked" && docs[id].enabled && docs[id].effective
  }

  predicate Missing(c: Chunk) { c.embedding == None || c.recipe != RECIPE }

  predicate Waits(c: Chunk, docs: Docs, last: int) {
    c.embedding == None && c.recipe == RECIPE && c.id > last && Open(docs, c.doc)
  }

  /** The rows of `KB_SEL` without its limit; the table is kept in the order of its key. */
  function Waiting(chunks: seq<Chunk>, docs: Docs, last: int): (r: seq<Chunk>)
    ensures |r| <= |chunks|
  {
    if chunks == [] then []
    else if Waits(chunks[0], docs, last) then [chunks[0]] + Waiting(chunks[1..], docs, last)
    else Waiting(chunks[1..], docs, last)
  }

  /** `LIMIT n`, and the rows after. */
  function First(rows: seq<Chunk>, n: nat): (r: seq<Chunk>)
    ensures |r| == if n < |rows| then n else |rows|
  {
    if n == 0 || rows == [] then [] else [rows[0]] + First(rows[1..], n - 1)
  }

  function Later(rows: seq<Chunk>, n: nat): (r: seq<Chunk>)
    ensures |r| == if n < |rows| then |rows| - n else 0
  {
    if n == 0 || rows == [] then rows else Later(rows[1..], n - 1)
  }

  /** `KB_MISS`. */
  function MissingCount(chunks: seq<Chunk>, docs: Docs): nat {
    if chunks == [] then 0
    else (if Missing(chunks[0]) && Open(docs, chunks[0].doc) then 1 else 0) + MissingCount(chunks[1..], docs)
  }

  /** The row `KB_UPD` means: unchanged since it was read, still empty, its document open. */
  predicate Target(c: Chunk, docs: Docs, row: Chunk) {
    && c.id == row.id && c.embeddingText == row.embeddingText && c.recipe == row.recipe
    && c.embedding == None && Open(docs, c.doc)
  }

  function Written(c: Chunk, text: string, v: Vector): Chunk {
    c.(embeddingText := text, recipe := RECIPE, embedding := Some(v))
  }

  /** The table after `KB_UPD`, and the number of rows it touched. */
  function Updated(chunks: seq<Chunk>, docs: Docs, row: Chunk, text: string, v: Vector): (r: seq<Chunk>)
    ensures |r| == |chunks|
  {
    if chunks == [] then []
    else [if Target(chunks[0], docs, row) then Written(chunks[0], text, v) else chunks[0]]
         + Updated(chunks[1..], docs, row, text, v)
  }

  function RowCount(chunks: seq<Chunk>, docs: Docs, row: Chunk): nat {
    if chunks == [] then 0
    else (if Target(chunks[0], docs, row) then 1 else 0) + RowCount(chunks[1..], docs, row)
  }

  /** `KB_DOCS`: a document's chunks, all and missing. */
  function Chunks(chunks: seq<Chunk>, doc: string): nat {
    if chunks == [] then 0 else (if chunks[0].doc == doc then 1 else 0) + Chunks(chunks[1..], doc)
  }

  function MissingOf(chunks: seq<Chunk>, doc: string): nat {
    if chunks == [] then 0
    else (if chunks[0].doc == doc && Missing(chunks[0]) then 1 else 0) + MissingOf(chunks[1..], doc)
  }

  predicate Promotable(total: nat, missing: nat) { total > 0 && missing == 0 }

  /** `KB_PROMOTE` meets the document. */
  predicate Advances(chunks: seq<Chunk>, docs: Docs, touched: set<string>, d: string) {
    d in touched && Promotable(Chunks(chunks, d), MissingOf(chunks, d)) && Open(docs, d)
  }

  function Advanced(d: Doc): Doc {
    d.(status := "embedded", error := if d.error == DOWNGRADE then "" else d.error)
  }

  function Promoted(chunks: seq<Chunk>, docs: Docs, touched: set<string>): Docs {
    map d | d in docs :: if Advances(chunks, docs, touched, d) then Advanced(docs[d]) else docs[d]
  }

  // ---------- the run as a function ----------

  datatype Progress = Progress(chunks: seq<Chunk>, fixed: nat, touched: set<string>)

  function Texts(rows: seq<Chunk>, docs: Docs): (r: seq<string>)
    ensures |r| == |rows|
  {
    if rows == [] then [] else [TextOf(rows[0], docs)] + Texts(rows[1..], docs)
  }

  function TextOf(c: Chunk, docs: Docs): string {
    EmbeddingText(if c.doc in docs then docs[c.doc].name else "", c.folder, c.heading, c.body)
  }

  function Step(p: Progress, docs: Docs, row: Chunk, text: string, v: Vector): Progress {
    if RowCount(p.chunks, docs, row) > 0
    then Progress(Updated(p.chunks, docs, row, text, v), p.fixed + 1, p.touched + {row.doc})
    else p.(chunks := Updated(p.chunks, docs, row, text, v))
  }

  function Steps(p: Progress, docs: Docs, rows: seq<Chunk>, texts: seq<string>, vecs: seq<Vector>): Progress
    requires |rows| == |texts| == |vecs|
    decreases |rows|
  {
    if rows == [] then p
    else Steps(Step(p, docs, rows[0], texts[0], vecs[0]), docs, rows[1..], texts[1..], vecs[1..])
  }

  predicate Answered(answer: Option<seq<Vector>>, n: nat) {
    answer.Some? && |answer.value| == n
  }

  function Batch(p: Progress, docs: Docs, rows: seq<Chunk>, answer: Option<seq<Vector>>): Progress
  {
    if Answered(answer, |rows|) then Steps(p, docs, rows, Texts(rows, docs), answer.value) else p
  }

  predicate Ascending(chunks: seq<Chunk>) {
    |chunks| <= 1 || (chunks[0].id < chunks[1].id && Ascending(chunks[1..]))
  }

  lemma {:induction false} WaitingKnown(chunks: seq<Chunk>, docs: Docs, last: int)
    ensures forall c :: c in Waiting(chunks, docs, last) ==> c.doc in docs && Waits(c, docs, last) && c in chunks
  {
    if chunks != [] {
      WaitingKnown(chunks[1..], docs, last);
    }
  }

  function RunAll(p: Progress, docs: Docs, waiting: seq<Chunk>, embed: Embedder, batch: nat, k: nat): Progress
    decreases |waiting|
  {
    if waiting == [] || batch == 0 then p
    else
      var rows := First(waiting, batch);
      RunAll(Batch(p, docs, rows, embed(k, Texts(rows, docs))), docs, Later(waiting, batch), embed, batch, k + 1)
  }

  // ---------- what a run writes ----------

  datatype Fill = Fill(text: string, vector: Vector)

  function Apply(chunks: seq<Chunk>, fills: map<int, Fill>): (r: seq<Chunk>)
    ensures |r| == |chunks|
  {
    if chunks == [] then []
    else [ApplyOne(chunks[0], fills)] + Apply(chunks[1..], fills)
  }

  function ApplyOne(c: Chunk, fills: map<int, Fill>): Chunk {
    if c.id in fills then Written(c, fills[c.id].text, fills[c.id].vector) else c
  }

  function FillsOf(rows: seq<Chunk>, texts: seq<string>, vecs: seq<Vector>): (r: map<int, Fill>)
    requires |rows| == |texts| == |vecs|
  {
    if rows == [] then map[]
    else map[rows[0].id := Fill(texts[0], vecs[0])] + FillsOf(rows[1..], texts[1..], vecs[1..])
  }

  function BatchFills(docs: Docs, rows: seq<Chunk>, answer: Option<seq<Vector>>): map<int, Fill>
  {
    if Answered(answer, |rows|) then FillsOf(rows, Texts(rows, docs), answer.value) else map[]
  }

  /** The vectors of the whole run, by chunk. */
  function Plan(docs: Docs, waiting: seq<Chunk>, embed: Embedder, batch: nat, k: nat): map<int, Fill>
    decreases |waiting|
  {
    if waiting == [] || batch == 0 then map[]
    else
      var rows := First(waiting, batch);
      BatchFills(docs, rows, embed(k, Texts(rows, docs))) + Plan(docs, Later(waiting, batch), embed, batch, k + 1)
  }

  // ---------- the table in key order ----------

  lemma {:induction false} AscendingAbove(chunks: seq<Chunk>)
    requires Ascending(chunks) && chunks != []
    ensures forall c :: c in chunks[1..] ==> c.id > chunks[0].id
  {
    if |chunks| > 1 {
      AscendingAbove(chunks[1..]);
      assert forall c :: c in chunks[1..] ==> c == chunks[1] || c in chunks[1..][1..];
    }
  }

  lemma {:induction false} SameIdSameRow(chunks: seq<Chunk>, a: Chunk, b: Chunk)
    requires Ascending(chunks) && a in chunks && b in chunks && a.id == b.id
    ensures a == b
  {
    AscendingAbove(chunks);
    if a != chunks[0] && b != chunks[0] {
      SameIdSameRow(chunks[1..], a, b);
    }
  }

  lemma {:induction false} WaitingAscending(chunks: seq<Chunk>, docs: Docs, last: int)
    requires Ascending(chunks)
    ensures Ascending(Waiting(chunks, docs, last))
  {
    if chunks != [] {
      WaitingAscending(chunks[1..], docs, last);
      WaitingKnown(chunks[1..], docs, last);
      AscendingAbove(chunks);
    }
  }

  lemma {:induction false} ApplyAscending(chunks: seq<Chunk>, fills: map<int, Fill>)
    requires Ascending(chunks)
    ensures Ascending(Apply(chunks, fills))
  {
    if |chunks| > 1 {
      ApplyAscending(chunks[1..], fills);
    }
  }

  lemma {:induction false} ApplyNone(chunks: seq<Chunk>, fills: map<int, Fill>)
    requires forall c :: c in chunks ==> c.id !in fills
    ensures Apply(chunks, fills) == chunks
  {
    if chunks != [] {
      ApplyNone(chunks[1..], fills);
    }
  }

  lemma {:induction false} ApplyTwice(chunks: seq<Chunk>, a: map<int, Fill>, b: map<int, Fill>)
    ensures Apply(Apply(chunks, a), b) == Apply(chunks, a + b)
  {
    if chunks != [] {
      ApplyTwice(chunks[1..], a, b);
    }
  }

  lemma {:induction false} ApplyKeeps(chunks: seq<Chunk>, fills: map<int, Fill>, c: Chunk)
    requires c in chunks && c.id !in fills
    ensures c in Apply(chunks, fills)
  {
    if c != chunks[0] {
      ApplyKeeps(chunks[1..], fills, c);
    }
  }

  // ---------- one update ----------

  lemma {:induction false} UpdateMisses(chunks: seq<Chunk>, docs: Docs, row: Chunk, text: string, v: Vector)
    requires forall c :: c in chunks ==> c.id != row.id
    ensures Updated(chunks, docs, row, text, v) == chunks == Apply(chunks, map[row.id := Fill(text, v)])
    ensures RowCount(chunks, docs, row) == 0
  {
    if chunks != [] {
      UpdateMisses(chunks[1..], docs, row, text, v);
    }
  }

  /** A row that is still as it was read is written, it alone, and is missing no longer. */
  lemma {:induction false} UpdateHits(chunks: seq<Chunk>, docs: Docs, row: Chunk, text: string, v: Vector)
    requires Ascending(chunks) && row in chunks && Target(row, docs, row)
    ensures Updated(chunks, docs, row, text, v) == Apply(chunks, map[row.id := Fill(text, v)])
    ensures RowCount(chunks, docs, row) == 1
    ensures MissingCount(Updated(chunks, docs, row, text, v), docs) + 1 == MissingCount(chunks, docs)
  {
    AscendingAbove(chunks);
    if chunks[0] == row {
      UpdateMisses(chunks[1..], docs, row, text, v);
    } else {
      UpdateHits(chunks[1..], docs, row, text, v);
    }
  }

  /** The rows are in the table as they were read, and waiting. */
  ghost predicate Ready(rows: seq<Chunk>, chunks: seq<Chunk>, docs: Docs) {
    && Ascending(rows) && Ascending(chunks)
    && forall c :: c in rows ==> c in chunks && Target(c, docs, c)
  }

  ghost function DocsOf(rows: seq<Chunk>): set<string> {
    if rows == [] then {} else {rows[0].doc} + DocsOf(rows[1..])
  }

  ghost function IdsOf(rows: seq<Chunk>): set<int> {
    if rows == [] then {} else {rows[0].id} + IdsOf(rows[1..])
  }

  lemma {:induction false} IdsBelow(rows: seq<Chunk>, bound: int)
    requires forall c :: c in rows ==> c.id <= bound
    ensures forall id :: id in IdsOf(rows) ==> id <= bound
  {
    if rows != [] {
      IdsBelow(rows[1..], bound);
    }
  }

  lemma {:induction false} ReadyAfter(rows: seq<Chunk>, chunks: seq<Chunk>, docs: Docs, fills: map<int, Fill>)
    requires Ready(rows, chunks, docs) && forall c :: c in rows ==> c.id !in fills
    ensures Ready(rows, Apply(chunks, fills), docs)
  {
    ApplyAscending(chunks, fills);
    forall c | c in rows
      ensures c in Apply(chunks, fills)
    {
      ApplyKeeps(chunks, fills, c);
    }
  }

  lemma {:induction false} StepApply(p: Progress, docs: Docs, row: Chunk, text: string, v: Vector)
    requires Ascending(p.chunks) && row in p.chunks && Target(row, docs, row)
    ensures Step(p, docs, row, text, v)
         == Progress(Apply(p.chunks, map[row.id := Fill(text, v)]), p.fixed + 1, p.touched + {row.doc})
    ensures MissingCount(Apply(p.chunks, map[row.id := Fill(text, v)]), docs) + 1 == MissingCount(p.chunks, docs)
  {
    UpdateHits(p.chunks, docs, row, text, v);
  }

  lemma {:induction false} ReadyRest(rows: seq<Chunk>, chunks: seq<Chunk>, docs: Docs, f: Fill)
    requires Ready(rows, chunks, docs) && rows != []
    ensures Ready(rows[1..], Apply(chunks, map[rows[0].id := f]), docs)
    ensures rows[0] in chunks && Target(rows[0], docs, rows[0])
  {
    AscendingAbove(rows);
    ReadyAfter(rows[1..], chunks, docs, map[rows[0].id := f]);
  }

  lemma {:induction false} StepsApply(p: Progress, docs: Docs, rows: seq<Chunk>, texts: seq<string>, vecs: seq<Vector>)
    requires |rows| == |texts| == |vecs| && Ready(rows, p.chunks, docs)
    ensures var q := Steps(p, docs, rows, texts, vecs);
      && q.chunks == Apply(p.chunks, FillsOf(rows, texts, vecs))
      && q.touched == p.touched + DocsOf(rows)
      && MissingCount(q.chunks, docs) + q.fixed == MissingCount(p.chunks, docs) + p.fixed
    ensures FillsOf(rows, texts, vecs).Keys == IdsOf(rows)
    decreases |rows|
  {
    if rows == [] {
      ApplyNone(p.chunks, map[]);
    } else {
      var row, f := rows[0], Fill(texts[0], vecs[0]);
      ReadyRest(rows, p.chunks, docs, f);
      StepApply(p, docs, row, texts[0], vecs[0]);
      StepsApply(Step(p, docs, row, texts[0], vecs[0]), docs, rows[1..], texts[1..], vecs[1..]);
      ApplyTwice(p.chunks, map[row.id := f], FillsOf(rows[1..], texts[1..], vecs[1..]));
    }
  }

  // ---------- the cursor ----------

  lemma {:induction false} WaitingApply(chunks: seq<Chunk>, docs: Docs, last: int, fills: map<int, Fill>)
    requires forall id :: id in fills ==> id <= last
    ensures Waiting(Apply(chunks, fills), docs, last) == Waiting(chunks, docs, last)
  {
    if chunks != [] {
      WaitingApply(chunks[1..], docs, last, fills);
    }
  }

  lemma {:induction false} WaitingAbove(chunks: seq<Chunk>, docs: Docs, a: int, b: int)
    requires forall c :: c in chunks ==> c.id > a && c.id > b
    ensures Waiting(chunks, docs, a) == Waiting(chunks, docs, b)
  {
    if chunks != [] {
      WaitingAbove(chunks[1..], docs, a, b);
    }
  }

  function LastId(rows: seq<Chunk>): int
    requires rows != []
  {
    rows[|rows| - 1].id
  }

  /** Moving the cursor to the last row read skips exactly the rows read. */
  lemma {:induction false} WaitingSkips(chunks: seq<Chunk>, docs: Docs, last: int, n: nat)
    requires Ascending(chunks) && 0 < n && Waiting(chunks, docs, last) != []
    ensures Waiting(chunks, docs, LastId(First(Waiting(chunks, docs, last), n))) == Later(Waiting(chunks, docs, last), n)
    ensures LastId(First(Waiting(chunks, docs, last), n)) > last
  {
    AscendingAbove(chunks);
    WaitingKnown(chunks[1..], docs, last);
    if !Waits(chunks[0], docs, last) {
      WaitingSkips(chunks[1..], docs, last, n);
    } else if n == 1 || Waiting(chunks[1..], docs, last) == [] {
      SkipsOne(chunks, docs, last, n);
    } else {
      WaitingSkips(chunks[1..], docs, last, n - 1);
      SkipsMore(chunks, docs, last, n);
    }
  }

  lemma {:induction false} SkipsOne(chunks: seq<Chunk>, docs: Docs, last: int, n: nat)
    requires chunks != [] && Waits(chunks[0], docs, last) && n > 0
    requires forall c :: c in chunks[1..] ==> c.id > chunks[0].id
    requires n == 1 || Waiting(chunks[1..], docs, last) == []
    ensures Waiting(chunks, docs, LastId(First(Waiting(chunks, docs, last), n))) == Later(Waiting(chunks, docs, last), n)
    ensures LastId(First(Waiting(chunks, docs, last), n)) > last
  {
    var rest := Waiting(chunks[1..], docs, last);
    assert ([chunks[0]] + rest)[1..] == rest;
    assert First(Waiting(chunks, docs, last), n) == [chunks[0]];
    WaitingAbove(chunks[1..], docs, last, chunks[0].id);
  }

  lemma {:induction false} SkipsMore(chunks: seq<Chunk>, docs: Docs, last: int, n: nat)
    requires chunks != [] && Waits(chunks[0], docs, last) && n > 1 && Waiting(chunks[1..], docs, last) != []
    requires forall c :: c in Waiting(chunks[1..], docs, last) ==> c.id > chunks[0].id
    requires var w := Waiting(chunks[1..], docs, last);
      Waiting(chunks[1..], docs, LastId(First(w, n - 1))) == Later(w, n - 1)
    ensures Waiting(chunks, docs, LastId(First(Waiting(chunks, docs, last), n))) == Later(Waiting(chunks, docs, last), n)
    ensures LastId(First(Waiting(chunks, docs, last), n)) > last
  {
    var w := Waiting(chunks[1..], docs, last);
    assert ([chunks[0]] + w)[1..] == w;
    assert First(Waiting(chunks, docs, last), n) == [chunks[0]] + First(w, n - 1);
    LastInside(w, n - 1);
  }

  lemma {:induction false} LastInside(rows: seq<Chunk>, n: nat)
    requires rows != [] && n > 0
    ensures exists c :: c in rows && c.id == LastId(First(rows, n))
  {
    if n > 1 && |rows| > 1 {
      LastInside(rows[1..], n - 1);
      assert First(rows, n) == [rows[0]] + First(rows[1..], n - 1);
    } else {
      assert First(rows[1..], n - 1) == [];
      assert First(rows, n) == [rows[0]];
      assert rows[0] in rows && rows[0].id == LastId(First(rows, n));
    }
  }

  lemma {:induction false} FirstLater(rows: seq<Chunk>, n: nat)
    ensures First(rows, n) + Later(rows, n) == rows
  {
    if n > 0 && rows != [] {
      FirstLater(rows[1..], n - 1);
      assert [rows[0]] + rows[1..] == rows;
    }
  }

  lemma {:induction false} AscendingCut(rows: seq<Chunk>, n: nat)
    requires Ascending(rows)
    ensures Ascending(First(rows, n)) && Ascending(Later(rows, n))
  {
    if n > 0 && rows != [] {
      AscendingCut(rows[1..], n - 1);
    }
  }

  /** The rows read end below the rows left. */
  lemma {:induction false} AscendingApart(rows: seq<Chunk>, n: nat)
    requires Ascending(rows) && rows != [] && n > 0
    ensures forall c :: c in First(rows, n) ==> c.id <= LastId(First(rows, n))
    ensures forall c :: c in Later(rows, n) ==> c.id > LastId(First(rows, n))
  {
    AscendingAbove(rows);
    if n > 1 && |rows| > 1 {
      AscendingApart(rows[1..], n - 1);
      LastInside(rows[1..], n - 1);
    }
  }

  lemma {:induction false} WaitingReady(chunks: seq<Chunk>, docs: Docs, last: int)
    requires Ascending(chunks)
    ensures Ready(Waiting(chunks, docs, last), chunks, docs)
  {
    WaitingAscending(chunks, docs, last);
    WaitingKnown(chunks, docs, last);
  }

  lemma {:induction false} ReadySplit(rows: seq<Chunk>, chunks: seq<Chunk>, docs: Docs, n: nat)
    requires Ready(rows, chunks, docs)
    ensures Ready(First(rows, n), chunks, docs) && Ready(Later(rows, n), chunks, docs)
  {
    AscendingCut(rows, n);
    FirstLater(rows, n);
  }

  lemma {:induction false} BatchApply(p: Progress, docs: Docs, rows: seq<Chunk>, answer: Option<seq<Vector>>)
    requires Ready(rows, p.chunks, docs)
    ensures var q := Batch(p, docs, rows, answer);
      && q.chunks == Apply(p.chunks, BatchFills(docs, rows, answer))
      && MissingCount(q.chunks, docs) + q.fixed == MissingCount(p.chunks, docs) + p.fixed
      && q.touched == p.touched + (if Answered(answer, |rows|) then DocsOf(rows) else {})
    ensures BatchFills(docs, rows, answer).Keys == if Answered(answer, |rows|) then IdsOf(rows) else {}
  {
    if Answered(answer, |rows|) {
      StepsApply(p, docs, rows, Texts(rows, docs), answer.value);
    } else {
      ApplyNone(p.chunks, map[]);
    }
  }

  lemma {:induction false} BatchBelow(docs: Docs, rows: seq<Chunk>, answer: Option<seq<Vector>>, bound: int)
    requires forall c :: c in rows ==> c.id <= bound
    requires BatchFills(docs, rows, answer).Keys <= IdsOf(rows)
    ensures forall id :: id in BatchFills(docs, rows, answer) ==> id <= bound
  {
    IdsBelow(rows, bound);
  }

  /** After a batch, whatever became of it, the rows beyond the cursor are the ones not read
      yet, exactly as they were. */
  lemma {:induction false} CursorPasses(p: Progress, docs: Docs, last: int, batch: nat, answer: Option<seq<Vector>>)
    requires Ascending(p.chunks) && batch > 0 && Waiting(p.chunks, docs, last) != []
    ensures var rows := First(Waiting(p.chunks, docs, last), batch);
      && LastId(rows) > last
      && Ascending(Batch(p, docs, rows, answer).chunks)
      && Waiting(Batch(p, docs, rows, answer).chunks, docs, LastId(rows)) == Later(Waiting(p.chunks, docs, last), batch)
  {
    var waiting := Waiting(p.chunks, docs, last);
    var rows := First(waiting, batch);
    WaitingReady(p.chunks, docs, last);
    ReadySplit(waiting, p.chunks, docs, batch);
    AscendingApart(waiting, batch);
    BatchApply(p, docs, rows, answer);
    var fills := BatchFills(docs, rows, answer);
    ApplyAscending(p.chunks, fills);
    BatchBelow(docs, rows, answer, LastId(rows));
    WaitingApply(p.chunks, docs, LastId(rows), fills);
    WaitingSkips(p.chunks, docs, last, batch);
  }

  /** One turn of the loop: the rest of the run, and the rows read so far. */
  lemma {:induction false} Turn(p: Progress, docs: Docs, last: int, embed: Embedder, batch: nat, k: nat, read: seq<Chunk>)
    requires Ascending(p.chunks) && Waiting(p.chunks, docs, last) != [] && batch > 0
    ensures var waiting := Waiting(p.chunks, docs, last);
      var rows := First(waiting, batch);
      var q := Batch(p, docs, rows, embed(k, Texts(rows, docs)));
      && Ascending(q.chunks) && Waiting(q.chunks, docs, LastId(rows)) == Later(waiting, batch)
      && (read + rows) + Later(waiting, batch) == read + waiting
      && RunAll(p, docs, waiting, embed, batch, k) == RunAll(q, docs, Later(waiting, batch), embed, batch, k + 1)
  {
    var waiting := Waiting(p.chunks, docs, last);
    var rows := First(waiting, batch);
    FirstLater(waiting, batch);
    assert (read + rows) + Later(waiting, batch) == read + (rows + Later(waiting, batch));
    CursorPasses(p, docs, last, batch, embed(k, Texts(rows, docs)));
  }

  datatype Report = Report(scanned: nat, fixed: nat, still: nat, promoted: nat)

  /** `revec_exit`. */
  function Exit(r: Report): int { if r.still != 0 then 1 else 0 }

  class KnowledgeBase {
    var chunks: seq<Chunk>
    var docs: Docs

    constructor (chunks: seq<Chunk>, docs: Docs)
      ensures this.chunks == chunks && this.docs == docs
    {
      this.chunks, this.docs := chunks, docs;
    }

    /** `revec_chunks`. `read` is the rows the cursor returned, in the order it did. */
    method RevecChunks(embed: Embedder, batch: nat) returns (report: Report, ghost read: seq<Chunk>)
      requires Ascending(chunks)
      modifies this
      ensures read == (if batch == 0 then [] else Waiting(old(chunks), old(docs), 0))
      ensures report.scanned == |read|
      ensures var p := Run(old(chunks), old(docs), embed, batch);
        && chunks == p.chunks && report.fixed == p.fixed
        && docs == Promoted(p.chunks, old(docs), p.touched)
      ensures report.promoted == |set d | d in docs && docs[d] != old(docs)[d]|
      ensures report.still == MissingCount(chunks, docs)
    {
      var scanned, fixed, last, touched: set<string>, k := 0, 0, 0, {}, 0;
      ghost var all := Waiting(chunks, docs, 0);
      ghost var whole := Run(chunks, docs, embed, batch);
      ghost var waiting := all;
      read := [];
      while true
        invariant docs == old(docs) && Ascending(chunks)
        invariant waiting == Waiting(chunks, docs, last)
        invariant batch > 0 ==> read + waiting == all
        invariant batch == 0 ==> read == []
        invariant scanned == |read|
        invariant RunAll(Progress(chunks, fixed, touched), docs, waiting, embed, batch, k) == whole
        decreases |waiting|
      {
        var rows := First(Waiting(chunks, docs, last), batch);
        if rows == [] { break; }
        Turn(Progress(chunks, fixed, touched), docs, last, embed, batch, k, read);
        last := LastId(rows);
        scanned := scanned + |rows|;
        fixed, touched := Serve(rows, embed, k, fixed, touched);
        k := k + 1;
        read := read + rows;
        waiting := Later(waiting, batch);
      }
      var promoted := Promote(touched);
      report := Report(scanned, fixed, MissingCount(chunks, docs), promoted);
    }

    /** Embedding one batch and writing it back; a failed or short answer writes nothing. */
    method Serve(rows: seq<Chunk>, embed: Embedder, k: nat, fixed0: nat, touched0: set<string>)
      returns (fixed: nat, touched: set<string>)
      modifies this`chunks
      ensures Progress(chunks, fixed, touched)
           == Batch(Progress(old(chunks), fixed0, touched0), docs, rows, embed(k, Texts(rows, docs)))
    {
      fixed, touched := fixed0, touched0;
      var texts := Texts(rows, docs);
      var answer := embed(k, texts);
      if Answered(answer, |texts|) {
        fixed, touched := WriteBatch(rows, texts, answer.value, fixed, touched);
      }
    }

    /** The inner loop: one guarded update a row. */
    method WriteBatch(rows: seq<Chunk>, texts: seq<string>, vecs: seq<Vector>, fixed0: nat, touched0: set<string>)
      returns (fixed: nat, touched: set<string>)
      requires |rows| == |texts| == |vecs|
      modifies this`chunks
      ensures Progress(chunks, fixed, touched) == Steps(Progress(old(chunks), fixed0, touched0), docs, rows, texts, vecs)
    {
      fixed, touched := fixed0, touched0;
      for i := 0 to |rows|
        invariant Steps(Progress(chunks, fixed, touched), docs, rows[i..], texts[i..], vecs[i..])
               == Steps(Progress(old(chunks), fixed0, touched0), docs, rows, texts, vecs)
      {
        assert rows[i..][1..] == rows[i + 1..] && texts[i..][1..] == texts[i + 1..] && vecs[i..][1..] == vecs[i + 1..];
        var rowcount := RowCount(chunks, docs, rows[i]);
        chunks := Updated(chunks, docs, rows[i], texts[i], vecs[i]);
        if rowcount > 0 {
          fixed := fixed + 1;
          touched := touched + {rows[i].doc};
        }
      }
    }

    /** `_promote`, and its guard: nothing touched, nothing to do. */
    method Promote(touched: set<string>) returns (promoted: nat)
      modifies this`docs
      ensures docs == Promoted(chunks, old(docs), touched)
      ensures promoted == |set d | d in docs && docs[d] != old(docs)[d]|
    {
      var ok := set d | d in docs && Advances(chunks, docs, touched, d);
      docs := Promoted(chunks, docs, touched);
      promoted := |ok|;
      assert ok == set d | d in docs && docs[d] != old(docs)[d];
    }
  }

  // ---------- what a run does to every row ----------

  /** `c` was in a batch that the service answered in full. */
  predicate Served(docs: Docs, waiting: seq<Chunk>, embed: Embedder, batch: nat, k: nat, c: Chunk)
    decreases |waiting|
  {
    waiting != [] && batch > 0
    && var rows := First(waiting, batch);
    || (c in rows && Answered(embed(k, Texts(rows, docs)), |rows|))
    || Served(docs, Later(waiting, batch), embed, batch, k + 1, c)
  }

  lemma {:induction false} ServedWaits(docs: Docs, waiting: seq<Chunk>, embed: Embedder, batch: nat, k: nat, c: Chunk)
    requires Served(docs, waiting, embed, batch, k, c)
    ensures c in waiting
    decreases |waiting|
  {
    FirstLater(waiting, batch);
    if c !in First(waiting, batch) {
      ServedWaits(docs, Later(waiting, batch), embed, batch, k + 1, c);
    }
  }

  /** `vecs` are the images of `texts` under `f`, one by one. */
  predicate Each(f: string -> Vector, texts: seq<string>, vecs: seq<Vector>) {
    if texts == [] || vecs == [] then texts == [] && vecs == []
    else vecs[0] == f(texts[0]) && Each(f, texts[1..], vecs[1..])
  }

  /** Whenever the service answers in full, it answers each text with its vector. */
  ghost predicate Faithful(embed: Embedder, f: string -> Vector) {
    forall k: nat, texts: seq<string> ::
      Answered(embed(k, texts), |texts|) ==> Each(f, texts, embed(k, texts).value)
  }

  lemma {:induction false} FillsAbove(rows: seq<Chunk>, texts: seq<string>, vecs: seq<Vector>, bound: int)
    requires |rows| == |texts| == |vecs| && forall c :: c in rows ==> c.id > bound
    ensures forall id :: id in FillsOf(rows, texts, vecs) ==> id > bound
  {
    if rows != [] {
      FillsAbove(rows[1..], texts[1..], vecs[1..], bound);
    }
  }

  lemma {:induction false} FillsExact(docs: Docs, rows: seq<Chunk>, vecs: seq<Vector>, f: string -> Vector, c: Chunk)
    requires |rows| == |vecs| && Ascending(rows) && c in rows
    ensures var fills := FillsOf(rows, Texts(rows, docs), vecs);
      && c.id in fills && fills[c.id].text == TextOf(c, docs)
      && (Each(f, Texts(rows, docs), vecs) ==> fills[c.id].vector == f(TextOf(c, docs)))
  {
    AscendingAbove(rows);
    FillsAbove(rows[1..], Texts(rows[1..], docs), vecs[1..], rows[0].id);
    if c != rows[0] {
      FillsExact(docs, rows[1..], vecs[1..], f, c);
    }
  }

  lemma {:induction false} BatchAbove(docs: Docs, rows: seq<Chunk>, answer: Option<seq<Vector>>, bound: int)
    requires forall c :: c in rows ==> c.id > bound
    ensures forall id :: id in BatchFills(docs, rows, answer) ==> id > bound
  {
    if Answered(answer, |rows|) {
      FillsAbove(rows, Texts(rows, docs), answer.value, bound);
    }
  }

  lemma {:induction false} FillsWithin(rows: seq<Chunk>, texts: seq<string>, vecs: seq<Vector>, bound: int)
    requires |rows| == |texts| == |vecs| && forall c :: c in rows ==> c.id <= bound
    ensures forall id :: id in FillsOf(rows, texts, vecs) ==> id <= bound
  {
    if rows != [] {
      FillsWithin(rows[1..], texts[1..], vecs[1..], bound);
    }
  }

  lemma {:induction false} BatchWithin(docs: Docs, rows: seq<Chunk>, answer: Option<seq<Vector>>, bound: int)
    requires forall c :: c in rows ==> c.id <= bound
    ensures forall id :: id in BatchFills(docs, rows, answer) ==> id <= bound
  {
    if Answered(answer, |rows|) {
      FillsWithin(rows, Texts(rows, docs), answer.value, bound);
    }
  }

  lemma {:induction false} PlanAbove(docs: Docs, waiting: seq<Chunk>, embed: Embedder, batch: nat, k: nat, bound: int)
    requires forall c :: c in waiting ==> c.id > bound
    ensures forall id :: id in Plan(docs, waiting, embed, batch, k) ==> id > bound
    decreases |waiting|
  {
    if waiting != [] && batch > 0 {
      var rows := First(waiting, batch);
      FirstLater(waiting, batch);
      BatchAbove(docs, rows, embed(k, Texts(rows, docs)), bound);
      PlanAbove(docs, Later(waiting, batch), embed, batch, k + 1, bound);
    }
  }

  /** A waiting row is written exactly if its batch was answered, and then with its own
      recipe text and, if the service is faithful, the vector of that text. */
  lemma {:induction false} PlanExact(docs: Docs, waiting: seq<Chunk>, embed: Embedder, f: string -> Vector, batch: nat, k: nat, c: Chunk)
    requires Ascending(waiting) && c in waiting
    ensures var plan := Plan(docs, waiting, embed, batch, k);
      && (c.id in plan <==> Served(docs, waiting, embed, batch, k, c))
      && (c.id in plan ==> plan[c.id].text == TextOf(c, docs))
      && (c.id in plan && Faithful(embed, f) ==> plan[c.id].vector == f(TextOf(c, docs)))
    decreases |waiting|
  {
    if batch > 0 {
      var rows, later := First(waiting, batch), Later(waiting, batch);
      var answer := embed(k, Texts(rows, docs));
      FirstLater(waiting, batch);
      AscendingCut(waiting, batch);
      AscendingApart(waiting, batch);
      PlanAbove(docs, later, embed, batch, k + 1, LastId(rows));
      BatchWithin(docs, rows, answer, LastId(rows));
      if c in rows {
        NotServed(docs, later, embed, batch, k + 1, c);
        if Answered(answer, |rows|) {
          FillsExact(docs, rows, answer.value, f, c);
        }
      } else {
        PlanExact(docs, later, embed, f, batch, k + 1, c);
      }
    }
  }

  lemma {:induction false} NotServed(docs: Docs, waiting: seq<Chunk>, embed: Embedder, batch: nat, k: nat, c: Chunk)
    requires forall r :: r in waiting ==> r.id > c.id
    ensures !Served(docs, waiting, embed, batch, k, c)
  {
    if Served(docs, waiting, embed, batch, k, c) {
      ServedWaits(docs, waiting, embed, batch, k, c);
    }
  }

  ghost predicate Touches(docs: Docs, waiting: seq<Chunk>, embed: Embedder, batch: nat, k: nat, d: string) {
    exists c :: c in waiting && c.doc == d && Served(docs, waiting, embed, batch, k, c)
  }

  lemma {:induction false} InDocs(rows: seq<Chunk>, d: string)
    ensures d in DocsOf(rows) <==> exists c :: c in rows && c.doc == d
  {
    if rows != [] {
      InDocs(rows[1..], d);
    }
  }

  lemma {:induction false} TouchesStep(docs: Docs, waiting: seq<Chunk>, embed: Embedder, batch: nat, k: nat, d: string)
    requires waiting != [] && batch > 0
    ensures var rows := First(waiting, batch);
      Touches(docs, waiting, embed, batch, k, d) <==>
        (Answered(embed(k, Texts(rows, docs)), |rows|) && d in DocsOf(rows))
        || Touches(docs, Later(waiting, batch), embed, batch, k + 1, d)
  {
    var rows, later := First(waiting, batch), Later(waiting, batch);
    FirstLater(waiting, batch);
    InDocs(rows, d);
    if Touches(docs, waiting, embed, batch, k, d) {
      var c :| c in waiting && c.doc == d && Served(docs, waiting, embed, batch, k, c);
      if Served(docs, later, embed, batch, k + 1, c) {
        ServedWaits(docs, later, embed, batch, k + 1, c);
      }
    }
    if Touches(docs, later, embed, batch, k + 1, d) {
      var c :| c in later && c.doc == d && Served(docs, later, embed, batch, k + 1, c);
      assert c in waiting && Served(docs, waiting, embed, batch, k, c);
    }
  }

  /** The run writes its plan, counts what it writes, and remembers the documents it wrote to. */
  lemma {:induction false} RunApplies(p: Progress, docs: Docs, waiting: seq<Chunk>, embed: Embedder, batch: nat, k: nat)
    requires Ready(waiting, p.chunks, docs)
    ensures var q := RunAll(p, docs, waiting, embed, batch, k);
      && q.chunks == Apply(p.chunks, Plan(docs, waiting, embed, batch, k))
      && MissingCount(q.chunks, docs) + q.fixed == MissingCount(p.chunks, docs) + p.fixed
    decreases |waiting|
  {
    if waiting == [] || batch == 0 {
      ApplyNone(p.chunks, map[]);
    } else {
      var rows, later := First(waiting, batch), Later(waiting, batch);
      var answer := embed(k, Texts(rows, docs));
      var fills := BatchFills(docs, rows, answer);
      ReadySplit(waiting, p.chunks, docs, batch);
      AscendingApart(waiting, batch);
      BatchApply(p, docs, rows, answer);
      BatchWithin(docs, rows, answer, LastId(rows));
      ReadyAfter(later, p.chunks, docs, fills);
      RunApplies(Batch(p, docs, rows, answer), docs, later, embed, batch, k + 1);
      ApplyTwice(p.chunks, fills, Plan(docs, later, embed, batch, k + 1));
    }
  }

  lemma {:induction false} RunTouches(p: Progress, docs: Docs, waiting: seq<Chunk>, embed: Embedder, batch: nat, k: nat, d: string)
    requires Ready(waiting, p.chunks, docs)
    ensures d in RunAll(p, docs, waiting, embed, batch, k).touched
      <==> d in p.touched || Touches(docs, waiting, embed, batch, k, d)
    decreases |waiting|
  {
    if waiting != [] && batch > 0 {
      var rows, later := First(waiting, batch), Later(waiting, batch);
      var answer := embed(k, Texts(rows, docs));
      ReadySplit(waiting, p.chunks, docs, batch);
      AscendingApart(waiting, batch);
      BatchApply(p, docs, rows, answer);
      BatchWithin(docs, rows, answer, LastId(rows));
      ReadyAfter(later, p.chunks, docs, BatchFills(docs, rows, answer));
      RunTouches(Batch(p, docs, rows, answer), docs, later, embed, batch, k + 1, d);
      TouchesStep(docs, waiting, embed, batch, k, d);
    }
  }

  // ---------- the main results ----------

  /** Row `c` is read by a run, and its batch is answered in full. */
  predicate Filled(c: Chunk, chunks: seq<Chunk>, docs: Docs, embed: Embedder, batch: nat) {
    Waits(c, docs, 0) && Served(docs, Waiting(chunks, docs, 0), embed, batch, 0, c)
  }

  /** The table after a run on `chunks` and `docs`. */
  function Run(chunks: seq<Chunk>, docs: Docs, embed: Embedder, batch: nat): Progress {
    RunAll(Progress(chunks, 0, {}), docs, Waiting(chunks, docs, 0), embed, batch, 0)
  }

  lemma {:induction false} InWaiting(chunks: seq<Chunk>, docs: Docs, last: int, c: Chunk)
    ensures c in Waiting(chunks, docs, last) <==> c in chunks && Waits(c, docs, last)
  {
    if chunks != [] {
      InWaiting(chunks[1..], docs, last, c);
    }
  }

  lemma {:induction false} ApplyAt(chunks: seq<Chunk>, fills: map<int, Fill>, i: nat)
    requires i < |chunks|
    ensures Apply(chunks, fills)[i] == ApplyOne(chunks[i], fills)
  {
    if i > 0 {
      ApplyAt(chunks[1..], fills, i - 1);
    }
  }

  lemma {:induction false} PlanWaits(docs: Docs, waiting: seq<Chunk>, embed: Embedder, batch: nat, k: nat)
    requires Ascending(waiting)
    ensures forall id :: id in Plan(docs, waiting, embed, batch, k) ==> exists c :: c in waiting && c.id == id
    decreases |waiting|
  {
    if waiting != [] && batch > 0 {
      var rows, later := First(waiting, batch), Later(waiting, batch);
      FirstLater(waiting, batch);
      AscendingCut(waiting, batch);
      PlanWaits(docs, later, embed, batch, k + 1);
      BatchWaits(docs, rows, embed(k, Texts(rows, docs)));
    }
  }

  lemma {:induction false} BatchWaits(docs: Docs, rows: seq<Chunk>, answer: Option<seq<Vector>>)
    ensures forall id :: id in BatchFills(docs, rows, answer) ==> exists c :: c in rows && c.id == id
  {
    if Answered(answer, |rows|) {
      FillsWait(rows, Texts(rows, docs), answer.value);
    }
  }

  lemma {:induction false} FillsWait(rows: seq<Chunk>, texts: seq<string>, vecs: seq<Vector>)
    requires |rows| == |texts| == |vecs|
    ensures forall id :: id in FillsOf(rows, texts, vecs) ==> exists c :: c in rows && c.id == id
  {
    if rows != [] {
      FillsWait(rows[1..], texts[1..], vecs[1..]);
      assert forall c :: c in rows[1..] ==> c in rows;
      assert rows[0] in rows;
    }
  }

  /** Every row: written with its own text, and that text's vector, if it was waiting and
      its batch was answered; untouched otherwise. */
  lemma {:induction false} EveryRow(chunks: seq<Chunk>, docs: Docs, embed: Embedder, f: string -> Vector, batch: nat, i: nat)
    requires Ascending(chunks) && i < |chunks|
    ensures |Run(chunks, docs, embed, batch).chunks| == |chunks|
    ensures var c, e := chunks[i], Run(chunks, docs, embed, batch).chunks[i];
      if Filled(c, chunks, docs, embed, batch)
      then && e.embedding.Some? && e == Written(c, TextOf(c, docs), e.embedding.value)
           && (Faithful(embed, f) ==> e.embedding == Some(f(TextOf(c, docs))))
      else e == c
  {
    var waiting, c := Waiting(chunks, docs, 0), chunks[i];
    var plan := Plan(docs, waiting, embed, batch, 0);
    WaitingReady(chunks, docs, 0);
    RunApplies(Progress(chunks, 0, {}), docs, waiting, embed, batch, 0);
    ApplyAt(chunks, plan, i);
    InWaiting(chunks, docs, 0, c);
    if c in waiting {
      PlanExact(docs, waiting, embed, f, batch, 0, c);
    } else if c.id in plan {
      PlanWaits(docs, waiting, embed, batch, 0);
      var w :| w in waiting && w.id == c.id;
      SameIdSameRow(chunks, w, c);
      assert false;
    }
  }

  lemma {:induction false} CountZero(chunks: seq<Chunk>, docs: Docs)
    ensures MissingCount(chunks, docs) == 0 <==> forall i :: 0 <= i < |chunks| ==> !(Missing(chunks[i]) && Open(docs, chunks[i].doc))
  {
    if chunks != [] {
      CountZero(chunks[1..], docs);
      assert forall i :: 0 < i < |chunks| ==> chunks[i] == chunks[1..][i - 1];
    }
  }

  lemma {:induction false} NoneMissing(chunks: seq<Chunk>, d: string)
    ensures MissingOf(chunks, d) == 0 <==> forall i :: 0 <= i < |chunks| ==> !(chunks[i].doc == d && Missing(chunks[i]))
    ensures Chunks(chunks, d) == 0 <==> forall i :: 0 <= i < |chunks| ==> chunks[i].doc != d
  {
    if chunks != [] {
      NoneMissing(chunks[1..], d);
      assert forall i :: 0 < i < |chunks| ==> chunks[i] == chunks[1..][i - 1];
    }
  }

  lemma {:induction false} CountSame(chunks: seq<Chunk>, a: Docs, b: Docs)
    requires forall c :: c in chunks && Missing(c) ==> (Open(a, c.doc) <==> Open(b, c.doc))
    ensures MissingCount(chunks, a) == MissingCount(chunks, b)
  {
    if chunks != [] {
      CountSame(chunks[1..], a, b);
    }
  }

  /** Advancing complete documents hides no missing row from the final count. */
  lemma {:induction false} PromotionHidesNothing(chunks: seq<Chunk>, docs: Docs, touched: set<string>)
    ensures MissingCount(chunks, Promoted(chunks, docs, touched)) == MissingCount(chunks, docs)
  {
    forall c | c in chunks && Missing(c)
      ensures Open(Promoted(chunks, docs, touched), c.doc) <==> Open(docs, c.doc)
    {
      NoneMissing(chunks, c.doc);
    }
    CountSame(chunks, docs, Promoted(chunks, docs, touched));
  }

  /** Accounting: what was missing is either filled or still missing. */
  lemma {:induction false} NothingGoesMissing(chunks: seq<Chunk>, docs: Docs, embed: Embedder, batch: nat)
    requires Ascending(chunks)
    ensures var p := Run(chunks, docs, embed, batch);
      MissingCount(p.chunks, Promoted(p.chunks, docs, p.touched)) + p.fixed == MissingCount(chunks, docs)
  {
    WaitingReady(chunks, docs, 0);
    RunApplies(Progress(chunks, 0, {}), docs, Waiting(chunks, docs, 0), embed, batch, 0);
    var p := Run(chunks, docs, embed, batch);
    PromotionHidesNothing(p.chunks, docs, p.touched);
  }

  /** What a run needs not to be left with: a row of an open document that is missing its
      vector and is not filled. */
  predicate LeftOver(c: Chunk, chunks: seq<Chunk>, docs: Docs, embed: Embedder, batch: nat) {
    Missing(c) && Open(docs, c.doc) && !Filled(c, chunks, docs, embed, batch)
  }

  lemma {:induction false} EndsMissing(chunks: seq<Chunk>, docs: Docs, embed: Embedder, batch: nat, i: nat)
    requires Ascending(chunks) && i < |chunks|
    ensures |Run(chunks, docs, embed, batch).chunks| == |chunks|
    ensures var e := Run(chunks, docs, embed, batch).chunks[i];
      && e.doc == chunks[i].doc
      && (Missing(e) <==> Missing(chunks[i]) && !Filled(chunks[i], chunks, docs, embed, batch))
  {
    EveryRow(chunks, docs, embed, _ => [], batch, i);
  }

  /** Success exactly if no open document had a missing row that was not filled. */
  lemma {:induction false} ExitZeroExactly(chunks: seq<Chunk>, docs: Docs, embed: Embedder, batch: nat, r: Report)
    requires Ascending(chunks)
    requires var p := Run(chunks, docs, embed, batch);
      r.still == MissingCount(p.chunks, Promoted(p.chunks, docs, p.touched))
    ensures Exit(r) == 0 <==> forall i :: 0 <= i < |chunks| ==> !LeftOver(chunks[i], chunks, docs, embed, batch)
  {
    var p := Run(chunks, docs, embed, batch);
    PromotionHidesNothing(p.chunks, docs, p.touched);
    CountZero(p.chunks, docs);
    if chunks != [] {
      EndsMissing(chunks, docs, embed, batch, 0);
    }
    forall i: nat | i < |chunks|
      ensures |p.chunks| == |chunks|
      ensures Missing(p.chunks[i]) && Open(docs, p.chunks[i].doc) <==> LeftOver(chunks[i], chunks, docs, embed, batch)
    {
      EndsMissing(chunks, docs, embed, batch, i);
    }
  }

  predicate AllAnswered(docs: Docs, waiting: seq<Chunk>, embed: Embedder, batch: nat, k: nat)
    decreases |waiting|
  {
    waiting == [] || batch == 0
    || var rows := First(waiting, batch);
       Answered(embed(k, Texts(rows, docs)), |rows|) && AllAnswered(docs, Later(waiting, batch), embed, batch, k + 1)
  }

  lemma {:induction false} AllServed(docs: Docs, waiting: seq<Chunk>, embed: Embedder, batch: nat, k: nat, c: Chunk)
    requires AllAnswered(docs, waiting, embed, batch, k) && batch > 0 && c in waiting
    ensures Served(docs, waiting, embed, batch, k, c)
    decreases |waiting|
  {
    FirstLater(waiting, batch);
    if c !in First(waiting, batch) {
      AllServed(docs, Later(waiting, batch), embed, batch, k + 1, c);
    }
  }

  /** With a service that never fails, what is left over is exactly the missing rows the
      cursor can never read: an outdated recipe, or a key that is not positive. Such a row
      is counted but not selected, so it makes every run fail. */
  lemma {:induction false} NeverSelected(chunks: seq<Chunk>, docs: Docs, embed: Embedder, batch: nat, i: nat)
    requires Ascending(chunks) && i < |chunks| && batch > 0
    requires AllAnswered(docs, Waiting(chunks, docs, 0), embed, batch, 0)
    ensures var c := chunks[i];
      LeftOver(c, chunks, docs, embed, batch) <==>
        Open(docs, c.doc) && (c.recipe != RECIPE || (c.embedding == None && c.id <= 0))
  {
    InWaiting(chunks, docs, 0, chunks[i]);
    if chunks[i] in Waiting(chunks, docs, 0) {
      AllServed(docs, Waiting(chunks, docs, 0), embed, batch, 0, chunks[i]);
    }
  }

  /** A document advances exactly if it was open, this run filled one of its chunks, and
      none of its chunks is left missing. */
  lemma {:induction false} AdvancesExactly(chunks: seq<Chunk>, docs: Docs, embed: Embedder, batch: nat, d: string)
    requires Ascending(chunks) && d in docs
    ensures var p := Run(chunks, docs, embed, batch);
      var after := Promoted(p.chunks, docs, p.touched);
      && d in after
      && after[d] == (if Advances(p.chunks, docs, p.touched, d) then Advanced(docs[d]) else docs[d])
      && (Advances(p.chunks, docs, p.touched, d) <==>
           && Open(docs, d)
           && (exists i :: 0 <= i < |chunks| && chunks[i].doc == d && Filled(chunks[i], chunks, docs, embed, batch))
           && (forall i :: 0 <= i < |chunks| && chunks[i].doc == d ==>
                !Missing(chunks[i]) || Filled(chunks[i], chunks, docs, embed, batch)))
  {
    var p, waiting := Run(chunks, docs, embed, batch), Waiting(chunks, docs, 0);
    NoneMissing(p.chunks, d);
    TouchedExactly(chunks, docs, embed, batch, d);
    if chunks != [] {
      EndsMissing(chunks, docs, embed, batch, 0);
    }
    forall i: nat | i < |chunks|
      ensures |p.chunks| == |chunks| && p.chunks[i].doc == chunks[i].doc
      ensures Missing(p.chunks[i]) <==> Missing(chunks[i]) && !Filled(chunks[i], chunks, docs, embed, batch)
    {
      EndsMissing(chunks, docs, embed, batch, i);
    }
  }

  lemma {:induction false} TouchedExactly(chunks: seq<Chunk>, docs: Docs, embed: Embedder, batch: nat, d: string)
    requires Ascending(chunks)
    ensures d in Run(chunks, docs, embed, batch).touched <==>
      exists i :: 0 <= i < |chunks| && chunks[i].doc == d && Filled(chunks[i], chunks, docs, embed, batch)
  {
    var waiting := Waiting(chunks, docs, 0);
    WaitingReady(chunks, docs, 0);
    RunTouches(Progress(chunks, 0, {}), docs, waiting, embed, batch, 0, d);
    if Touches(docs, waiting, embed, batch, 0, d) {
      var c :| c in waiting && c.doc == d && Served(docs, waiting, embed, batch, 0, c);
      InWaiting(chunks, docs, 0, c);
      var i :| 0 <= i < |chunks| && chunks[i] == c;
      assert Filled(chunks[i], chunks, docs, embed, batch);
    }
    if i :| 0 <= i < |chunks| && chunks[i].doc == d && Filled(chunks[i], chunks, docs, embed, batch) {
      InWaiting(chunks, docs, 0, chunks[i]);
    }
  }

  lemma {:induction false} RunAscending(chunks: seq<Chunk>, docs: Docs, embed: Embedder, batch: nat)
    requires Ascending(chunks)
    ensures Ascending(Run(chunks, docs, embed, batch).chunks)
  {
    var waiting := Waiting(chunks, docs, 0);
    WaitingReady(chunks, docs, 0);
    RunApplies(Progress(chunks, 0, {}), docs, waiting, embed, batch, 0);
    ApplyAscending(chunks, Plan(docs, waiting, embed, batch, 0));
  }

  lemma {:induction false} CompleteStays(chunks: seq<Chunk>, docs: Docs, embed: Embedder, batch: nat, d: string)
    requires Ascending(chunks) && d in docs
    requires forall i :: 0 <= i < |chunks| && chunks[i].doc == d ==> !Missing(chunks[i])
    ensures var p := Run(chunks, docs, embed, batch); Promoted(p.chunks, docs, p.touched)[d] == docs[d]
    ensures forall i :: 0 <= i < |chunks| && chunks[i].doc == d ==> !LeftOver(chunks[i], chunks, docs, embed, batch)
  {
    AdvancesExactly(chunks, docs, embed, batch, d);
    forall i | 0 <= i < |chunks| && chunks[i].doc == d
      ensures !Filled(chunks[i], chunks, docs, embed, batch)
    {
      assert !Missing(chunks[i]);
    }
  }

  /** A run cut short between its last write and the promotion leaves the rows of the whole
      run and the documents of before. A document it was about to advance is then open and
      complete; no later run ever advances it, and it does not make one fail. */
  lemma {:induction false} CompleteButStuck(chunks: seq<Chunk>, docs: Docs, embed: Embedder, batch: nat,
                                           embed2: Embedder, batch2: nat, d: string)
    requires Ascending(chunks) && d in docs
    requires var p := Run(chunks, docs, embed, batch); Advances(p.chunks, docs, p.touched, d)
    ensures var left := Run(chunks, docs, embed, batch).chunks;
      var again := Run(left, docs, embed2, batch2);
      && Open(docs, d) && Promotable(Chunks(left, d), MissingOf(left, d))
      && Promoted(again.chunks, docs, again.touched)[d] == docs[d]
      && forall i :: 0 <= i < |left| && left[i].doc == d ==> !LeftOver(left[i], left, docs, embed2, batch2)
  {
    var left := Run(chunks, docs, embed, batch).chunks;
    RunAscending(chunks, docs, embed, batch);
    NoneMissing(left, d);
    CompleteStays(left, docs, embed2, batch2, d);
  }
}
