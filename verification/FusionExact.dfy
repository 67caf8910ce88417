/** What each question gets, in full: the plan rule by rule, which answers count, and the one
    answer made of two (crates/agent/src/ask.rs:259-330, crates/agent/src/hybrid.rs:210-545). */
module FusionExact {
  import opened Fusion

  // ---------- the plan ----------

  /** A file is asked for. */
  predicate AsksForFile(w: Wording) { w.verb && (w.noun || w.ext) }

  /** The topic is a document: a document word, and the contract measures nothing, or nothing
      that a registered metric or the contract's own claim on the word bears out. */
  predicate AboutDocument(w: Wording, c: Contract) {
    w.noun && (!c.measurable || (!w.registryMetric && !c.nounClaimed))
  }

  /** Which rule decides a question, and what it gives. */
  lemma {:induction false} DecideExactly(w: Wording, c: Contract)
    ensures var p := Decide(w, c);
      && (p.reason == "forced" <==> w.chip.Some?)
      && (p.reason == "doc-request" <==> w.chip == None && AsksForFile(w))
      && (p.reason == "code-lookup" <==> w.chip == None && !AsksForFile(w) && w.codeToken)
      && (p.reason == "doc-topic" <==> w.chip == None && !AsksForFile(w) && !w.codeToken && AboutDocument(w, c))
      && (p.reason == "contract" <==>
            w.chip == None && !AsksForFile(w) && !w.codeToken && !AboutDocument(w, c) && c.route != Unknown)
    ensures var p := Decide(w, c);
      && (w.chip.Some? ==> p.route == w.chip.value)
      && (p.reason == "doc-request" || p.reason == "doc-topic" ==> p.route == Knowledge)
      && (p.reason == "code-lookup" ==> p.route == Data)
      && (p.reason == "contract" || p.reason == "no-signal" ==> p.route == c.route)
      && (p.deterministic <==> p.reason == "doc-request" || p.reason == "code-lookup" || p.reason == "doc-topic")
      && (p.deliverable == Document <==> p.reason == "doc-request")
      && (IsPrimary(p) <==> p.reason == "doc-request" || p.reason == "doc-topic")
  {
  }

  // ---------- which answers count ----------

  predicate WordAt(s: string, i: nat, word: string) {
    i + |word| <= |s| && s[i..i + |word|] == word
  }

  ghost predicate Holds(s: string, word: string) { exists i :: WordAt(s, i, word) }

  lemma {:induction false} HoldsIs(s: string, word: string)
    ensures Contains(s, word) <==> Holds(s, word)
  {
    if s != "" {
      HoldsIs(s[1..], word);
      if i: nat :| WordAt(s[1..], i, word) {
        assert WordAt(s, i + 1, word);
      }
      if i: nat :| WordAt(s, i, word) {
        if i > 0 {
          assert WordAt(s[1..], i - 1, word);
        }
      }
    }
    if |word| <= |s| && s[..|word|] == word {
      assert WordAt(s, 0, word);
    }
  }

  /** The data arm has answered: it says that the fact is not in the warehouse; or it neither
      asks back nor is off topic, and has rows, parts, or a card. */
  ghost predicate Answers(r: AskResult) {
    || Holds(r.sql, UNAVAILABLE)
    || (r.route != "need-intent" && r.route != "no-topic"
        && (r.rowCount > 0 || |r.subs| > 0 || exists k :: 0 <= k < |r.blocks| && (r.blocks[k] == Entity || r.blocks[k] == Kpis)))
  }

  lemma {:induction false} AnswersIs(r: AskResult)
    ensures DataHasSubstance(r) <==> Answers(r)
  {
    HoldsIs(r.sql, UNAVAILABLE);
  }

  /** The documents have answered in time: with citations and not "not found", or in another
      form than text. A destructive question is not put to them. */
  predicate InTime(w: Wording, reply: Option<Answer>, inTime: bool, notFound: NotFound) {
    && !w.destructive && inTime && reply.Some?
    && (reply.value.Text? ==> |reply.value.citations| > 0 && !notFound(reply.value.markdown))
  }

  lemma {:induction false} InTimeIs(w: Wording, reply: Option<Answer>, inTime: bool, notFound: NotFound)
    ensures InTime(w, reply, inTime, notFound) <==> KbCounts(w, reply, inTime, notFound)
    ensures var raced := if inTime then KbArm(w, reply) else None;
      Substantive(raced, notFound) == if InTime(w, reply, inTime, notFound) then reply else None
  {
  }

  // ---------- one answer of two ----------

  /** The documents' answer alone, under a note if there is one. */
  function DocumentsAlone(a: Answer, note: Option<string>, elapsed: nat): AskResult {
    AskResult("knowledge", "[复合问题拆解]", [], 0, [Table], None, [], NoteAbove(note, Digest(a)), Some(a), elapsed, "")
  }

  function NoteAbove(note: Option<string>, digest: Option<string>): Option<string> {
    if note.None? then digest else if digest.None? then note else Some(note.value + "\n" + digest.value)
  }

  /** The data arm's answer with the documents in their panel, and the summary of both as its
      insight unless it has one. */
  function WithPanel(r: AskResult, a: Answer, summary: Option<string>): AskResult {
    r.(kb := Some(a), insight := if r.insight.Some? then r.insight else summary)
  }

  /** Why the data arm did not answer: its own note, or that it asked back. */
  function Excuse(r: AskResult): Option<string> {
    if r.caliberNote.Some? then r.caliberNote
    else if r.route == "need-intent" then Some("数据侧未能确定查询口径，以上只是资料侧的回答。")
    else None
  }

  lemma {:induction false} FusedAlone(a: Answer, note: Option<string>, question: string, elapsed: nat)
    ensures Fuse(OnlyKb(a, note), question, elapsed) == DocumentsAlone(a, note, elapsed)
  {
  }

  /** A data answer with substance: documents in time are shown beside it exactly if the
      question names documents or a summary could use them; where a file was asked for they
      replace it. */
  lemma {:induction false} AnsweredExactly(w: Wording, c: Contract, r: AskResult, reply: Option<Answer>, inTime: bool,
                                          notFound: NotFound, summary: Option<string>, elapsed: nat)
    requires Answers(r)
    ensures Dual(w, c, Ok(r), reply, inTime, notFound, summary, elapsed) == Ok(
      if !InTime(w, reply, inTime, notFound) then r
      else if w.chip == None && AsksForFile(w) then DocumentsAlone(reply.value, None, elapsed)
      else if w.noun || summary.Some? then WithPanel(r, reply.value, summary)
      else r)
  {
    AnswersIs(r);
    DecideExactly(w, c);
    InTimeIs(w, reply, inTime, notFound);
    if reply.Some? {
      FusedAlone(reply.value, None, w.question, elapsed);
    }
  }

  /** A data answer without: a data question keeps it, with the documents beside it exactly if
      it names documents; any other question gets the documents, with the excuse above them
      unless it was a document question. */
  lemma {:induction false} RefusedExactly(w: Wording, c: Contract, r: AskResult, reply: Option<Answer>, inTime: bool,
                                         notFound: NotFound, summary: Option<string>, elapsed: nat)
    requires !Answers(r)
    ensures Dual(w, c, Ok(r), reply, inTime, notFound, summary, elapsed) == Ok(
      if !InTime(w, reply, inTime, notFound) then r
      else if Decide(w, c).route == Data then (if w.noun then WithPanel(r, reply.value, None) else r)
      else DocumentsAlone(reply.value, if Decide(w, c).route == Knowledge then None else Excuse(r), elapsed))
  {
    AnswersIs(r);
    InTimeIs(w, reply, inTime, notFound);
    if reply.Some? {
      FusedAlone(reply.value, DataNote(Decide(w, c), r), w.question, elapsed);
    }
  }

  ghost predicate AboutPermission(message: string) {
    || Holds(message, "无权") || Holds(message, "权限") || Holds(message, "scope")
    || Holds(message, "Scope") || Holds(message, "principal") || Holds(message, "Principal")
  }

  lemma {:induction false} AboutPermissionIs(message: string)
    ensures PermissionFailure(message) <==> AboutPermission(message)
  {
    forall i | 0 <= i < |PERMISSION_WORDS|
      ensures Contains(message, PERMISSION_WORDS[i]) <==> Holds(message, PERMISSION_WORDS[i])
    {
      HoldsIs(message, PERMISSION_WORDS[i]);
    }
    assert PERMISSION_WORDS[0] == "无权" && PERMISSION_WORDS[1] == "权限" && PERMISSION_WORDS[2] == "scope";
    assert PERMISSION_WORDS[3] == "Scope" && PERMISSION_WORDS[4] == "principal" && PERMISSION_WORDS[5] == "Principal";
  }

  /** A failed data arm: the documents alone answer, if they did in time and the failure was
      not one of permission; else the failure is the answer. */
  lemma {:induction false} FailedExactly(w: Wording, c: Contract, message: string, reply: Option<Answer>, inTime: bool,
                                        notFound: NotFound, summary: Option<string>, elapsed: nat)
    ensures Dual(w, c, Err(message), reply, inTime, notFound, summary, elapsed) ==
      if InTime(w, reply, inTime, notFound) && !AboutPermission(message) then Ok(DocumentsAlone(reply.value, None, elapsed))
      else Err(message)
  {
    AboutPermissionIs(message);
    InTimeIs(w, reply, inTime, notFound);
    if reply.Some? {
      FusedAlone(reply.value, None, w.question, elapsed);
    }
  }

  // ---------- split questions ----------

  lemma {:induction false} LongestIs(subs: seq<SubResult>)
    ensures forall i :: 0 <= i < |subs| ==> subs[i].result.elapsed <= LongestOf(subs)
    ensures subs != [] ==> exists i :: 0 <= i < |subs| && subs[i].result.elapsed == LongestOf(subs)
  {
    if subs != [] {
      LongestIs(subs[1..]);
      assert forall i :: 0 < i < |subs| ==> subs[i] == subs[1..][i - 1];
      if LongestOf(subs[1..]) > subs[0].result.elapsed {
        assert subs[1..] != [];
        var i :| 0 <= i < |subs[1..]| && subs[1..][i].result.elapsed == LongestOf(subs[1..]);
        assert subs[i + 1] == subs[1..][i];
      } else {
        assert subs[0].result.elapsed == LongestOf(subs);
      }
    }
  }

  /** All data questions of a split question answered: the container shows nothing of its own
      but the parts, the documents, the summary of both, and the time of the slowest part. */
  lemma {:induction false} SplitInFull(qs: seq<Routed>, rs: seq<Result<AskResult>>, knowledge: Option<Answer>,
                                      summary: Option<string>, question: string, elapsed: nat)
    requires |rs| == |qs| >= 1 && forall i :: 0 <= i < |rs| ==> rs[i].Ok?
    ensures Run(qs, rs, knowledge, summary).Ok?
    ensures var out := IntoAskResult(Run(qs, rs, knowledge, summary).value, question, elapsed);
      && out.rows == [] && out.rowCount == 0 && out.blocks == [Table]
      && out.insight == (if knowledge.Some? then summary else None)
      && out.caliberNote == (if knowledge.Some? then Digest(knowledge.value) else None)
      && out.subs != [] && (forall i :: 0 <= i < |out.subs| ==> out.subs[i].result.elapsed <= out.elapsed)
      && exists i :: 0 <= i < |out.subs| && out.subs[i].result.elapsed == out.elapsed
  {
    SplitAnswersShown(qs, rs, knowledge, summary, question, elapsed);
    AllOkLength(rs);
    LongestIs(IntoAskResult(Run(qs, rs, knowledge, summary).value, question, elapsed).subs);
  }

  // ---------- the digest ----------

  /** A decimal number. */
  predicate Decimal(s: string, n: nat)
    decreases |s|
  {
    && s != "" && '0' <= s[|s| - 1] <= '9' && s[|s| - 1] as int - '0' as int == n % 10
    && (if n < 10 then |s| == 1 else Decimal(s[..|s| - 1], n / 10))
  }

  lemma {:induction false} CountDecimal(n: nat)
    ensures Decimal(Count(n), n)
  {
    if n >= 10 {
      CountDecimal(n / 10);
      assert Count(n)[..|Count(n)| - 1] == Count(n / 10);
    }
  }

  /** The note on documents: the first four hundred characters, and how many citations. */
  lemma {:induction false} DigestExact(markdown: string, citations: seq<string>)
    ensures exists x, n ::
      && Digest(Text(markdown, citations)) == Some("知识库：" + x + "（引用 " + n + " 条）")
      && x <= markdown && (x == markdown || |x| == 400) && |x| <= 400 && Decimal(n, |citations|)
  {
    var x := if |markdown| > 400 then markdown[..400] else markdown;
    CountDecimal(|citations|);
    assert Digest(Text(markdown, citations)) == Some("知识库：" + x + "（引用 " + Count(|citations|) + " 条）");
  }
}
