/** One run of the vector back-fill, field by field: which rows it reads in which request, what
    it writes into them, and what becomes of their documents
    (tools/embed_service.py:1369-1474). */
module RevecExact {
  import opened Revec

  // ---------- the rows to read ----------

  /** The document is chunked, enabled, and in effect. */
  predicate InUse(docs: Docs, id: string) {
    id in docs && docs[id].status == "chunked" && docs[id].enabled && docs[id].effective
  }

  predicate ToRead(c: Chunk, docs: Docs) {
    c.embedding.None? && c.recipe == 1 && c.id > 0 && InUse(docs, c.doc)
  }

  /** `w` are the rows to read, in the order of their keys. */
  ghost predicate AllToRead(w: seq<Chunk>, chunks: seq<Chunk>, docs: Docs) {
    && (forall i, j :: 0 <= i < j < |w| ==> w[i].id < w[j].id)
    && forall c :: c in w <==> c in chunks && ToRead(c, docs)
  }

  lemma {:induction false} AscendingIs(rows: seq<Chunk>)
    ensures Ascending(rows) <==> forall i, j :: 0 <= i < j < |rows| ==> rows[i].id < rows[j].id
  {
    if rows != [] {
      assert forall i, j :: 0 <= i < j < |rows[1..]| ==> rows[1..][i] == rows[i + 1] && rows[1..][j] == rows[j + 1];
      AscendingIs(rows[1..]);
      if Ascending(rows) {
        AscendingAbove(rows);
        forall i, j | 0 <= i < j < |rows|
          ensures rows[i].id < rows[j].id
        {
          assert rows[j] == rows[1..][j - 1] && rows[j] in rows[1..];
          if i > 0 {
            assert rows[i] == rows[1..][i - 1];
          }
        }
      }
    }
  }

  lemma {:induction false} FirstIn(rows: seq<Chunk>)
    ensures rows != [] ==> rows[0] in rows
  {
  }

  /** Two ascending lists of the same rows are the same. */
  lemma {:induction false} SameRowsSameList(a: seq<Chunk>, b: seq<Chunk>)
    requires Ascending(a) && Ascending(b) && forall c :: c in a <==> c in b
    ensures a == b
  {
    if a != [] {
      assert a[0] in b;
      assert b[0] in a;
      AscendingAbove(a);
      AscendingAbove(b);
      assert forall c :: c in a ==> c == a[0] || c in a[1..];
      assert forall c :: c in b ==> c == b[0] || c in b[1..];
      assert a[0] == b[0];
      forall c
        ensures c in a[1..] <==> c in b[1..]
      {
        assert c in a[1..] ==> c in a;
        assert c in b[1..] ==> c in b;
      }
      SameRowsSameList(a[1..], b[1..]);
    } else {
      FirstIn(b);
    }
  }

  lemma {:induction false} ReadIsWaiting(w: seq<Chunk>, chunks: seq<Chunk>, docs: Docs)
    requires Ascending(chunks) && AllToRead(w, chunks, docs)
    ensures w == Waiting(chunks, docs, 0)
  {
    AscendingIs(w);
    WaitingAscending(chunks, docs, 0);
    forall c
      ensures c in w <==> c in Waiting(chunks, docs, 0)
    {
      InWaiting(chunks, docs, 0, c);
    }
    SameRowsSameList(w, Waiting(chunks, docs, 0));
  }

  // ---------- what is asked of the service ----------

  /** The text a row is embedded as: the document's name, the folder, the heading, and the
      body, with `/` for no folder and 正文 for no heading. */
  predicate SpellsOut(t: string, name: string, c: Chunk) {
    var folder := if c.folder == "" then "/" else c.folder;
    var heading := if c.heading == "" then "正文" else c.heading;
    t == "文件：" + (name + ("\n目录：" + (folder + ("\n章节：" + (heading + ("\n\n" + c.body))))))
  }

  predicate AllSpellOut(texts: seq<string>, rows: seq<Chunk>, docs: Docs) {
    |texts| == |rows| && forall i :: 0 <= i < |rows| ==> rows[i].doc in docs && SpellsOut(texts[i], docs[rows[i].doc].name, rows[i])
  }

  lemma {:induction false} TextSpellsOut(c: Chunk, docs: Docs)
    requires c.doc in docs
    ensures SpellsOut(TextOf(c, docs), docs[c.doc].name, c)
  {
    Regroup("文件：", docs[c.doc].name, "\n目录：", OrElse(c.folder, "/"), "\n章节：", OrElse(c.heading, "正文"), "\n\n", c.body);
  }

  lemma {:induction false} Regroup(a: string, b: string, c: string, d: string, e: string, f: string, g: string, h: string)
    ensures a + b + c + d + e + f + g + h == a + (b + (c + (d + (e + (f + (g + h))))))
  {
  }

  lemma {:induction false} TextsAt(rows: seq<Chunk>, docs: Docs, i: nat)
    requires i < |rows|
    ensures Texts(rows, docs)[i] == TextOf(rows[i], docs)
  {
    if i > 0 {
      TextsAt(rows[1..], docs, i - 1);
    }
  }

  lemma {:induction false} TextsSpellOut(rows: seq<Chunk>, docs: Docs)
    requires forall i :: 0 <= i < |rows| ==> rows[i].doc in docs
    ensures AllSpellOut(Texts(rows, docs), rows, docs)
  {
    forall i | 0 <= i < |rows|
      ensures SpellsOut(Texts(rows, docs)[i], docs[rows[i].doc].name, rows[i])
    {
      TextsAt(rows, docs, i);
      TextSpellsOut(rows[i], docs);
    }
  }

  // ---------- requests ----------

  lemma {:induction false} FirstIs(rows: seq<Chunk>, n: nat)
    ensures First(rows, n) == rows[..Least(n, |rows|)] && Later(rows, n) == rows[Least(n, |rows|)..]
  {
    if n > 0 && rows != [] {
      FirstIs(rows[1..], n - 1);
    }
  }

  function Least(a: nat, b: nat): nat { if a < b then a else b }

  /** Where request `k` starts. */
  function From(batch: nat, k: nat): nat { if k == 0 then 0 else From(batch, k - 1) + batch }

  /** The rows of request `k`. */
  function Request(w: seq<Chunk>, batch: nat, k: nat): seq<Chunk>
    requires From(batch, k) <= |w|
  {
    w[From(batch, k)..Least(From(batch, k) + batch, |w|)]
  }

  lemma {:induction false} FillAt(rows: seq<Chunk>, texts: seq<string>, vecs: seq<Vector>, m: nat)
    requires |rows| == |texts| == |vecs| && Ascending(rows) && m < |rows|
    ensures var fills := FillsOf(rows, texts, vecs); rows[m].id in fills && fills[rows[m].id] == Fill(texts[m], vecs[m])
  {
    AscendingAbove(rows);
    FillsAbove(rows[1..], texts[1..], vecs[1..], rows[0].id);
    if m > 0 {
      FillAt(rows[1..], texts[1..], vecs[1..], m - 1);
      assert rows[1..][m - 1] == rows[m];
    }
  }

  /** What becomes of the `m`-th row of a request. */
  ghost predicate PlannedAs(plan: map<int, Fill>, c: Chunk, text: string, answer: Option<seq<Vector>>, n: nat, m: nat)
    requires m < n
  {
    if answer.Some? && |answer.value| == n then c.id in plan && plan[c.id] == Fill(text, answer.value[m])
    else c.id !in plan
  }

  /** Rows beyond the first request are planned by the later ones. */
  lemma {:induction false} PlanOfLater(docs: Docs, w: seq<Chunk>, embed: Embedder, batch: nat, k0: nat, c: Chunk)
    requires Ascending(w) && batch > 0 && c in Later(w, batch)
    ensures var plan, more := Plan(docs, w, embed, batch, k0), Plan(docs, Later(w, batch), embed, batch, k0 + 1);
      (c.id in plan <==> c.id in more) && (c.id in plan ==> plan[c.id] == more[c.id])
  {
    AscendingApart(w, batch);
    var rows := First(w, batch);
    BatchWithin(docs, rows, embed(k0, Texts(rows, docs)), LastId(rows));
  }

  lemma {:induction false} PlannedSame(plan: map<int, Fill>, more: map<int, Fill>, c: Chunk, text: string,
                                       answer: Option<seq<Vector>>, n: nat, m: nat)
    requires m < n && PlannedAs(more, c, text, answer, n, m)
    requires (c.id in plan <==> c.id in more) && (c.id in plan ==> plan[c.id] == more[c.id])
    ensures PlannedAs(plan, c, text, answer, n, m)
  {
  }

  /** The `m`-th row of request `k` is planned as the answer to that request says. */
  ghost predicate PlannedRow(docs: Docs, rows: seq<Chunk>, c: Chunk, plan: map<int, Fill>, answer: Option<seq<Vector>>, m: nat) {
    m < |rows| && PlannedAs(plan, c, TextOf(c, docs), answer, |rows|, m)
  }

  /** `c` is the `m`-th row of request `k`, which is `rows`. */
  ghost predicate InRequest(w: seq<Chunk>, batch: nat, k: nat, m: nat, rows: seq<Chunk>, c: Chunk) {
    m < batch && From(batch, k) + m < |w| && rows == Request(w, batch, k) && c == w[From(batch, k) + m]
  }

  lemma {:induction false} PlanAt(docs: Docs, w: seq<Chunk>, embed: Embedder, batch: nat, k0: nat, k: nat, m: nat,
                                  q: nat, rows: seq<Chunk>, texts: seq<string>, c: Chunk, answer: Option<seq<Vector>>)
    requires Ascending(w) && q == k0 + k && InRequest(w, batch, k, m, rows, c)
    requires texts == Texts(rows, docs) && answer == embed(q, texts)
    ensures PlannedRow(docs, rows, c, Plan(docs, w, embed, batch, k0), answer, m)
    decreases k
  {
    if k == 0 {
      PlanFirst(docs, w, embed, batch, k0, m);
    } else {
      LaterIs(w, batch, k, m, rows, c);
      PlanAt(docs, Later(w, batch), embed, batch, k0 + 1, k - 1, m, q, rows, texts, c, answer);
      PlanStep(docs, w, embed, batch, k0, c, rows, answer, m);
    }
  }

  lemma {:induction false} PlanStep(docs: Docs, w: seq<Chunk>, embed: Embedder, batch: nat, k0: nat, c: Chunk, rows: seq<Chunk>,
                                    answer: Option<seq<Vector>>, m: nat)
    requires Ascending(w) && batch > 0 && c in Later(w, batch)
    requires PlannedRow(docs, rows, c, Plan(docs, Later(w, batch), embed, batch, k0 + 1), answer, m)
    ensures PlannedRow(docs, rows, c, Plan(docs, w, embed, batch, k0), answer, m)
  {
    PlanOfLater(docs, w, embed, batch, k0, c);
    PlannedSame(Plan(docs, w, embed, batch, k0), Plan(docs, Later(w, batch), embed, batch, k0 + 1), c, TextOf(c, docs), answer, |rows|, m);
  }

  /** Behind the first request, request `k` is the one before. */
  lemma {:induction false} LaterIs(w: seq<Chunk>, batch: nat, k: nat, m: nat, rows: seq<Chunk>, c: Chunk)
    requires Ascending(w) && k > 0 && InRequest(w, batch, k, m, rows, c)
    ensures batch > 0 && Ascending(Later(w, batch)) && c in Later(w, batch)
    ensures InRequest(Later(w, batch), batch, k - 1, m, rows, c)
  {
    FirstIs(w, batch);
    AscendingCut(w, batch);
    LessOne(k, batch, m, |w|);
    RequestLater(w, batch, k);
    SliceAt(w, batch, From(batch, k - 1) + m);
  }

  lemma {:induction false} SliceAt<T>(w: seq<T>, d: nat, i: nat)
    requires d + i < |w|
    ensures w[d..][i] == w[d + i] && w[d + i] in w[d..]
  {
    assert w[d..][i] in w[d..];
  }

  lemma {:induction false} LessOne(k: nat, batch: nat, m: nat, n: nat)
    requires k > 0 && From(batch, k) + m < n
    ensures From(batch, k) == From(batch, k - 1) + batch && batch <= n && From(batch, k - 1) + m < n - batch
  {
  }

  lemma {:induction false} RequestLater(w: seq<Chunk>, batch: nat, k: nat)
    requires k > 0 && From(batch, k) <= |w| && From(batch, k) == From(batch, k - 1) + batch && From(batch, k - 1) <= |w| - batch
    ensures Request(w[batch..], batch, k - 1) == Request(w, batch, k)
  {
  }

  lemma {:induction false} PlanFirst(docs: Docs, w: seq<Chunk>, embed: Embedder, batch: nat, k0: nat, m: nat)
    requires Ascending(w) && batch > 0 && m < |w| && m < batch
    ensures PlannedRow(docs, Request(w, batch, 0), w[m], Plan(docs, w, embed, batch, k0),
                       embed(k0, Texts(Request(w, batch, 0), docs)), m)
  {
    FirstIs(w, batch);
    AscendingCut(w, batch);
    var rows := First(w, batch);
    assert Request(w, batch, 0) == rows && rows[m] == w[m] && w[m] in rows;
    var answer := embed(k0, Texts(rows, docs));
    BatchAt(docs, rows, answer, m);
    PlanOfFirst(docs, w, embed, batch, k0, w[m]);
    PlannedSame(Plan(docs, w, embed, batch, k0), BatchFills(docs, rows, answer), w[m], TextOf(w[m], docs), answer, |rows|, m);
  }

  lemma {:induction false} PlanOfFirst(docs: Docs, w: seq<Chunk>, embed: Embedder, batch: nat, k0: nat, c: Chunk)
    requires Ascending(w) && batch > 0 && c in First(w, batch)
    ensures var rows := First(w, batch);
      var plan, fills := Plan(docs, w, embed, batch, k0), BatchFills(docs, rows, embed(k0, Texts(rows, docs)));
      (c.id in plan <==> c.id in fills) && (c.id in plan ==> plan[c.id] == fills[c.id])
  {
    AscendingApart(w, batch);
    PlanAbove(docs, Later(w, batch), embed, batch, k0 + 1, LastId(First(w, batch)));
  }

  lemma {:induction false} BatchAt(docs: Docs, rows: seq<Chunk>, answer: Option<seq<Vector>>, m: nat)
    requires Ascending(rows) && m < |rows|
    ensures PlannedAs(BatchFills(docs, rows, answer), rows[m], TextOf(rows[m], docs), answer, |rows|, m)
  {
    if Answered(answer, |rows|) {
      FillAt(rows, Texts(rows, docs), answer.value, m);
      TextsAt(rows, docs, m);
    }
  }

  // ---------- rows ----------

  lemma {:induction false} AtRow(chunks: seq<Chunk>, docs: Docs, embed: Embedder, batch: nat, i: nat)
    requires Ascending(chunks) && i < |chunks|
    ensures |Run(chunks, docs, embed, batch).chunks| == |chunks|
    ensures Run(chunks, docs, embed, batch).chunks[i] == ApplyOne(chunks[i], Plan(docs, Waiting(chunks, docs, 0), embed, batch, 0))
  {
    WaitingReady(chunks, docs, 0);
    RunApplies(Progress(chunks, 0, {}), docs, Waiting(chunks, docs, 0), embed, batch, 0);
    ApplyAt(chunks, Plan(docs, Waiting(chunks, docs, 0), embed, batch, 0), i);
  }

  /** The `m`-th row of a request after its answer. */
  function AfterAnswer(c: Chunk, texts: seq<string>, answer: Option<seq<Vector>>, m: nat): Chunk
    requires m < |texts|
  {
    if answer.Some? && |answer.value| == |texts|
    then c.(embeddingText := texts[m], recipe := 1, embedding := Some(answer.value[m])) else c
  }

  /** A row read. The rows to read are asked for `batch` at a time, in the order of their keys;
      the `m`-th of request `k` gets its text, the recipe and the `m`-th vector if there came
      as many vectors as texts, and stays as it was if not. */
  lemma {:induction false} RowInFull(chunks: seq<Chunk>, docs: Docs, embed: Embedder, batch: nat, w: seq<Chunk>, k: nat, m: nat, i: nat)
    returns (texts: seq<string>)
    requires Ascending(chunks) && AllToRead(w, chunks, docs)
    requires m < batch && From(batch, k) + m < |w| && i < |chunks| && chunks[i] == w[From(batch, k) + m]
    ensures AllSpellOut(texts, Request(w, batch, k), docs) && m < |texts|
    ensures |Run(chunks, docs, embed, batch).chunks| == |chunks|
    ensures Run(chunks, docs, embed, batch).chunks[i] == AfterAnswer(chunks[i], texts, embed(k, texts), m)
  {
    ReadIsWaiting(w, chunks, docs);
    AscendingIs(w);
    var rows := Request(w, batch, k);
    texts := Texts(rows, docs);
    RequestKnown(w, chunks, docs, batch, k);
    TextsSpellOut(rows, docs);
    RowAfter(chunks, docs, embed, batch, w, k, m, i, texts);
  }

  lemma {:induction false} RowAfter(chunks: seq<Chunk>, docs: Docs, embed: Embedder, batch: nat, w: seq<Chunk>, k: nat, m: nat, i: nat,
                                    texts: seq<string>)
    requires Ascending(chunks) && Ascending(w) && w == Waiting(chunks, docs, 0)
    requires m < batch && From(batch, k) + m < |w| && i < |chunks| && chunks[i] == w[From(batch, k) + m]
    requires texts == Texts(Request(w, batch, k), docs)
    ensures |Run(chunks, docs, embed, batch).chunks| == |chunks| && m < |texts|
    ensures Run(chunks, docs, embed, batch).chunks[i] == AfterAnswer(chunks[i], texts, embed(k, texts), m)
  {
    PlanAt(docs, w, embed, batch, 0, k, m, k, Request(w, batch, k), texts, chunks[i], embed(k, texts));
    AtRow(chunks, docs, embed, batch, i);
    TextOfRow(w, docs, batch, k, m);
    RowWritten(Plan(docs, w, embed, batch, 0), chunks[i], texts, embed(k, texts), m);
  }

  lemma {:induction false} TextOfRow(w: seq<Chunk>, docs: Docs, batch: nat, k: nat, m: nat)
    requires m < batch && From(batch, k) + m < |w|
    ensures m < |Request(w, batch, k)| && Texts(Request(w, batch, k), docs)[m] == TextOf(w[From(batch, k) + m], docs)
  {
    TextsAt(Request(w, batch, k), docs, m);
  }

  lemma {:induction false} RowWritten(plan: map<int, Fill>, c: Chunk, texts: seq<string>, answer: Option<seq<Vector>>, m: nat)
    requires m < |texts| && PlannedAs(plan, c, texts[m], answer, |texts|, m)
    ensures ApplyOne(c, plan) == AfterAnswer(c, texts, answer, m)
  {
  }

  lemma {:induction false} RequestKnown(w: seq<Chunk>, chunks: seq<Chunk>, docs: Docs, batch: nat, k: nat)
    requires AllToRead(w, chunks, docs) && From(batch, k) <= |w|
    ensures forall i :: 0 <= i < |Request(w, batch, k)| ==> Request(w, batch, k)[i].doc in docs
  {
    forall i | 0 <= i < |Request(w, batch, k)|
      ensures Request(w, batch, k)[i].doc in docs
    {
      assert Request(w, batch, k)[i] in w;
    }
  }

  /** Any other row stays as it was. */
  lemma {:induction false} OthersStay(chunks: seq<Chunk>, docs: Docs, embed: Embedder, batch: nat, i: nat)
    requires Ascending(chunks) && i < |chunks| && !ToRead(chunks[i], docs)
    ensures |Run(chunks, docs, embed, batch).chunks| == |chunks| && Run(chunks, docs, embed, batch).chunks[i] == chunks[i]
  {
    EveryRow(chunks, docs, embed, _ => [], batch, i);
  }

  // ---------- documents ----------

  /** The row has its vector, of the present recipe. */
  predicate Whole(c: Chunk) { c.embedding.Some? && c.recipe == 1 }

  lemma {:induction false} ChangedIsFilled(chunks: seq<Chunk>, docs: Docs, embed: Embedder, batch: nat, i: nat)
    requires Ascending(chunks) && i < |chunks|
    ensures |Run(chunks, docs, embed, batch).chunks| == |chunks|
    ensures Run(chunks, docs, embed, batch).chunks[i] != chunks[i] <==> Filled(chunks[i], chunks, docs, embed, batch)
    ensures Run(chunks, docs, embed, batch).chunks[i].doc == chunks[i].doc
    ensures Whole(Run(chunks, docs, embed, batch).chunks[i]) <==>
      !Missing(chunks[i]) || Filled(chunks[i], chunks, docs, embed, batch)
  {
    EveryRow(chunks, docs, embed, _ => [], batch, i);
  }

  /** A document. It is marked embedded, and cured of the note that the service was down,
      exactly if it was in use, the run changed a row of it, and every row of it is now
      whole; otherwise it stays as it was. */
  lemma {:induction false} DocumentInFull(chunks: seq<Chunk>, docs: Docs, embed: Embedder, batch: nat, d: string)
    requires Ascending(chunks) && d in docs
    ensures var p := Run(chunks, docs, embed, batch);
      && |p.chunks| == |chunks| && d in Promoted(p.chunks, docs, p.touched)
      && Promoted(p.chunks, docs, p.touched)[d] ==
         if && InUse(docs, d)
            && (exists i :: 0 <= i < |chunks| && chunks[i].doc == d && p.chunks[i] != chunks[i])
            && (forall i :: 0 <= i < |chunks| && chunks[i].doc == d ==> Whole(p.chunks[i]))
         then docs[d].(status := "embedded", error := if docs[d].error == "向量服务不可用，稍后可重建" then "" else docs[d].error)
         else docs[d]
  {
    AdvancesExactly(chunks, docs, embed, batch, d);
    if chunks != [] {
      ChangedIsFilled(chunks, docs, embed, batch, 0);
    } else {
      RunEmpty(docs, embed, batch);
    }
    forall i: nat | i < |chunks|
      ensures Run(chunks, docs, embed, batch).chunks[i] != chunks[i] <==> Filled(chunks[i], chunks, docs, embed, batch)
      ensures Whole(Run(chunks, docs, embed, batch).chunks[i]) <==>
        !Missing(chunks[i]) || Filled(chunks[i], chunks, docs, embed, batch)
    {
      ChangedIsFilled(chunks, docs, embed, batch, i);
    }
  }

  lemma {:induction false} RunEmpty(docs: Docs, embed: Embedder, batch: nat)
    ensures Run([], docs, embed, batch).chunks == []
  {
  }

  /** The exit code is 0 exactly if the run left every row of the documents in use whole. */
  lemma {:induction false} ExitInFull(chunks: seq<Chunk>, docs: Docs, embed: Embedder, batch: nat, r: Report)
    requires Ascending(chunks)
    requires var p := Run(chunks, docs, embed, batch);
      r.still == MissingCount(p.chunks, Promoted(p.chunks, docs, p.touched))
    ensures var p := Run(chunks, docs, embed, batch);
      && (Exit(r) == 0 || Exit(r) == 1)
      && (Exit(r) == 0 <==> forall i :: 0 <= i < |p.chunks| && InUse(docs, p.chunks[i].doc) ==> Whole(p.chunks[i]))
  {
    var p := Run(chunks, docs, embed, batch);
    PromotionHidesNothing(p.chunks, docs, p.touched);
    CountZero(p.chunks, docs);
  }
}
