/** Answering with two arms, data and documents: the plan of a question
    (crates/agent/src/ask.rs:177-345), what the two arms' answers become
    (crates/agent/src/hybrid.rs:119-240 and 303-578). What is read off a question's text or
    a model's reading of it is given as facts; the arms' answers are inputs. */
module Fusion {

  datatype Option<+T> = None | Some(value: T)

  datatype Result<+T> = Ok(value: T) | Err(message: string)

  // ---------- the plan ----------

  datatype Route = Data | Knowledge | Hybrid | Unknown

  datatype Deliverable = Reply | Document

  datatype Plan = Plan(route: Route, deliverable: Deliverable, deterministic: bool, reason: string)

  /** What the text of a question shows. `chip` is the route the user pressed. */
  datatype Wording = Wording(chip: Option<Route>, verb: bool, noun: bool, ext: bool, codeToken: bool,
                             registryMetric: bool, destructive: bool, question: string)

  /** What the model's contract says about the question. */
  datatype Contract = Contract(route: Route, measurable: bool, nounClaimed: bool)

  /** `decide`, rules R0 to R4 in order. */
  function Decide(w: Wording, c: Contract): Plan {
    if w.chip.Some? then Plan(w.chip.value, Reply, false, "forced")
    else if w.verb && (w.noun || w.ext) then Plan(Knowledge, Document, true, "doc-request")
    else if w.codeToken then Plan(Data, Reply, true, "code-lookup")
    else if w.noun && !(c.measurable && (w.registryMetric || c.nounClaimed)) then Plan(Knowledge, Reply, true, "doc-topic")
    else if c.route != Unknown then Plan(c.route, Reply, false, "contract")
    else Plan(Unknown, Reply, false, "no-signal")
  }

  /** The model has no say in the plan. */
  ghost predicate ModelFree(w: Wording) {
    forall c, d :: Decide(w, c) == Decide(w, d)
  }

  /** A file is to be delivered exactly under rule R1, which no contract can change. */
  lemma {:induction false} DocumentExactly(w: Wording, c: Contract)
    ensures Decide(w, c).deliverable == Document <==> w.chip == None && w.verb && (w.noun || w.ext)
    ensures Decide(w, c).deliverable == Document ==> ModelFree(w) && IsPrimary(Decide(w, c))
  {
  }

  /** The plan is free of the model exactly under a pressed chip, R1 and R1.5. Rule R2 calls
      its plan deterministic too, but it reads the contract. */
  lemma {:induction false} ModelFreeExactly(w: Wording)
    ensures ModelFree(w) <==> w.chip.Some? || (w.verb && (w.noun || w.ext)) || w.codeToken
  {
    if !(w.chip.Some? || (w.verb && (w.noun || w.ext)) || w.codeToken) {
      var c, d := Contract(Data, true, true), Contract(Hybrid, true, true);
      assert Decide(w, c) != Decide(w, d);
    }
  }

  /** A question with a document number is a data question whatever the model reads into it,
      unless a chip is pressed or a file is asked for. */
  lemma {:induction false} NumberIsLookedUp(w: Wording, c: Contract)
    requires w.codeToken && w.chip == None && !(w.verb && (w.noun || w.ext))
    ensures Decide(w, c).route == Data && Decide(w, c).deterministic && ModelFree(w) && !IsPrimary(Decide(w, c))
  {
    ModelFreeExactly(w);
  }

  /** So a plan called deterministic can change with the model's sample. */
  lemma {:induction false} DeterministicByName(w: Wording, c: Contract) returns (d: Contract)
    requires Decide(w, c).reason == "doc-topic"
    ensures Decide(w, c).deterministic && Decide(w, d) != Decide(w, c)
  {
    d := Contract(Data, true, true);
  }

  // ---------- answers ----------

  datatype Block = Table | Entity | Kpis | OtherBlock

  datatype Answer = Text(markdown: string, citations: seq<string>) | OtherAnswer(kind: string)

  datatype SubResult = SubResult(question: string, result: AskResult)

  /** `extra` stands for the fields neither arm's fusion reads or writes. */
  datatype AskResult = AskResult(route: string, sql: string, rows: seq<seq<string>>, rowCount: nat,
                                 blocks: seq<Block>, insight: Option<string>, subs: seq<SubResult>,
                                 caliberNote: Option<string>, kb: Option<Answer>, elapsed: nat, extra: string)

  const NEED_INTENT := "need-intent"
  const NO_TOPIC := "no-topic"
  const KNOWLEDGE := "knowledge"
  const UNAVAILABLE := "'不可计算' AS `数据状态`"
  const NO_CALIBER := "数据侧未能确定查询口径，以上只是资料侧的回答。"

  predicate Contains(s: string, word: string)
    decreases |s|
  {
    (|word| <= |s| && s[..|word|] == word) || (s != "" && Contains(s[1..], word))
  }

  predicate IsUnavailable(r: AskResult) { Contains(r.sql, UNAVAILABLE) }

  /** `data_has_substance`. */
  predicate DataHasSubstance(r: AskResult) {
    if IsUnavailable(r) then true
    else if r.route == NEED_INTENT || r.route == NO_TOPIC then false
    else r.rowCount > 0 || r.subs != [] || Entity in r.blocks || Kpis in r.blocks
  }

  /** How a text is recognised as "not found". */
  type NotFound = string -> bool

  /** `kb_has_substance`. */
  predicate KbHasSubstance(a: Answer, notFound: NotFound) {
    match a
    case Text(markdown, citations) => citations != [] && !notFound(markdown)
    case OtherAnswer(_) => true
  }

  datatype Outcome = Outcome(data: Option<AskResult>, knowledge: Option<Answer>, summary: Option<string>,
                             clarification: Option<AskResult>, dataNote: Option<string>)

  function OnlyKb(a: Answer, note: Option<string>): Outcome { Outcome(None, Some(a), None, None, note) }

  function OnlyData(r: AskResult, kb: Option<Answer>): Outcome { Outcome(Some(r), kb, None, None, None) }

  const PERMISSION_WORDS := ["无权", "权限", "scope", "Scope", "principal", "Principal"]

  predicate PermissionFailure(message: string) {
    exists i :: 0 <= i < |PERMISSION_WORDS| && Contains(message, PERMISSION_WORDS[i])
  }

  predicate IsPrimary(p: Plan) { p.route == Knowledge && p.deterministic }

  /** The knowledge arm's answer, if it is asked at all and does not fail. */
  function KbArm(w: Wording, reply: Option<Answer>): Option<Answer> {
    if w.destructive then None else reply
  }

  function Substantive(kb: Option<Answer>, notFound: NotFound): Option<Answer> {
    if kb.Some? && KbHasSubstance(kb.value, notFound) then kb else None
  }

  /** The note that explains why the data side had no answer. */
  function DataNote(p: Plan, r: AskResult): Option<string> {
    if p.route == Knowledge then None
    else if r.caliberNote.Some? then r.caliberNote
    else if r.route == NEED_INTENT then Some(NO_CALIBER)
    else None
  }

  /** `dual_outcome` after the race: `raced` is what the race returned for the knowledge arm,
      `summary` what a summary of both would be. */
  function DualOutcome(w: Wording, c: Contract, data: Result<AskResult>, raced: Option<Answer>,
                       notFound: NotFound, summary: Option<string>): Result<Outcome>
  {
    var p := Decide(w, c);
    var knowledge := Substantive(raced, notFound);
    if data.Err? then
      (if PermissionFailure(data.message) || knowledge.None? then Err(data.message) else Ok(OnlyKb(knowledge.value, None)))
    else
      var r := data.value;
      if knowledge.None? then Ok(OnlyData(r, None))
      else if !DataHasSubstance(r) && p.route == Data then Ok(OnlyData(r, if w.noun then knowledge else None))
      else if !DataHasSubstance(r) then Ok(OnlyKb(knowledge.value, DataNote(p, r)))
      else if IsPrimary(p) && (p.deliverable == Document || !DataHasSubstance(r)) then Ok(OnlyKb(knowledge.value, None))
      else if summary.None? && !w.noun then Ok(OnlyData(r, None))
      else Ok(Outcome(Some(r), knowledge, summary, None, None))
  }

  /** `AskResult::compound`. */
  function Compound(subs: seq<SubResult>, elapsed: nat): AskResult {
    AskResult("compound", "[复合问题拆解]", [], 0, [Table], None, subs, None, None, elapsed, "")
  }

  function LongestOf(subs: seq<SubResult>): nat {
    if subs == [] then 0
    else if LongestOf(subs[1..]) > subs[0].result.elapsed then LongestOf(subs[1..])
    else subs[0].result.elapsed
  }

  function Digest(a: Answer): Option<string> {
    match a
    case Text(markdown, citations) =>
      Some("知识库：" + (if |markdown| > 400 then markdown[..400] else markdown) + "（引用 " + Count(|citations|) + " 条）")
    case OtherAnswer(_) => None
  }

  function Count(n: nat): string {
    if n < 10 then [('0' as int + n) as char] else Count(n / 10) + [('0' as int + n % 10) as char]
  }

  /** `into_ask_result`. */
  function IntoAskResult(o: Outcome, question: string, elapsed: nat): AskResult {
    if o.clarification.Some? then o.clarification.value
    else
      var subs :=
        if o.data.None? then []
        else if o.data.value.subs != [] then o.data.value.subs
        else [SubResult(question, o.data.value)];
      var box := Compound(subs, if subs == [] then elapsed else LongestOf(subs));
      var named := if subs == [] then box.(route := KNOWLEDGE) else box;
      var noted := if o.knowledge.Some? && Digest(o.knowledge.value).Some?
                   then named.(caliberNote := Digest(o.knowledge.value)) else named;
      noted.(kb := o.knowledge, insight := o.summary)
  }

  /** `fuse`. */
  function Fuse(o: Outcome, question: string, elapsed: nat): AskResult {
    if o.clarification.Some? then o.clarification.value
    else if o.data.None? then
      var out := IntoAskResult(o.(clarification := None, dataNote := None), question, elapsed);
      if o.dataNote.None? then out
      else out.(caliberNote := Some(if out.caliberNote.Some? then o.dataNote.value + "\n" + out.caliberNote.value
                                    else o.dataNote.value))
    else
      var r := o.data.value;
      if o.knowledge.None? then r
      else r.(kb := o.knowledge, insight := if r.insight.None? then o.summary else r.insight)
  }

  /** `dual`, from what the two arms gave: `reply` is the document arm's answer, `inTime`
      whether the race got it. */
  function Dual(w: Wording, c: Contract, data: Result<AskResult>, reply: Option<Answer>, inTime: bool,
                notFound: NotFound, summary: Option<string>, elapsed: nat): Result<AskResult>
  {
    var raced := if inTime then KbArm(w, reply) else None;
    var o := DualOutcome(w, c, data, raced, notFound, summary);
    if o.Err? then Err(o.message) else Ok(Fuse(o.value, w.question, elapsed))
  }

  // ---------- what every answer keeps ----------

  /** The document arm answered, in time and with substance. */
  predicate KbCounts(w: Wording, reply: Option<Answer>, inTime: bool, notFound: NotFound) {
    !w.destructive && inTime && reply.Some? && KbHasSubstance(reply.value, notFound)
  }

  /** There is always an answer of an arm, or the data arm's error; and it is the error
      exactly if the data arm failed and either permission was the cause or the document
      arm has nothing to say. */
  lemma {:induction false} AnswerOrError(w: Wording, c: Contract, data: Result<AskResult>, raced: Option<Answer>,
                                        notFound: NotFound, summary: Option<string>)
    ensures var o := DualOutcome(w, c, data, raced, notFound, summary);
      && (o.Err? <==> data.Err? && (PermissionFailure(data.message) || Substantive(raced, notFound).None?))
      && (o.Err? ==> o.message == data.message)
      && (o.Ok? ==> (o.value.data.Some? || o.value.knowledge.Some?) && o.value.clarification.None?)
      && (o.Ok? && o.value.data.Some? ==> data == Ok(o.value.data.value))
      && (o.Ok? && o.value.knowledge.Some? ==> raced == o.value.knowledge && KbHasSubstance(raced.value, notFound))
  {
  }

  /** A permission error reaches the caller whatever the documents say. */
  lemma {:induction false} PermissionPropagates(w: Wording, c: Contract, message: string, reply: Option<Answer>, inTime: bool,
                                               notFound: NotFound, summary: Option<string>, elapsed: nat)
    requires PermissionFailure(message)
    ensures Dual(w, c, Err(message), reply, inTime, notFound, summary, elapsed) == Err(message)
  {
    var raced := if inTime then KbArm(w, reply) else None;
    AnswerOrError(w, c, Err(message), raced, notFound, summary);
  }

  /** A destructive question is answered by the data arm alone, unchanged. */
  lemma {:induction false} DestructiveHasNoDocuments(w: Wording, c: Contract, data: Result<AskResult>, reply: Option<Answer>, inTime: bool,
                                                    notFound: NotFound, summary: Option<string>, elapsed: nat)
    requires w.destructive
    ensures Dual(w, c, data, reply, inTime, notFound, summary, elapsed) == data
  {
    var raced := if inTime then KbArm(w, reply) else None;
    assert raced == None;
    assert Substantive(raced, notFound) == None;
  }

  /** `out` is `r` with at most a document panel and, if it had none, an insight added. */
  predicate KeptWithPanel(r: AskResult, out: AskResult) {
    && out.(kb := r.kb, insight := r.insight) == r
    && (out.insight == r.insight || r.insight == None)
  }

  /** A data answer with substance keeps its route, rows, row count and everything else but
      the panel and a missing insight; unless a file was asked for and the documents have
      one, and then the answer is the documents' alone. */
  lemma {:induction false} SubstanceIsKept(w: Wording, c: Contract, r: AskResult, reply: Option<Answer>, inTime: bool,
                                          notFound: NotFound, summary: Option<string>, elapsed: nat)
    requires DataHasSubstance(r)
    ensures var out := Dual(w, c, Ok(r), reply, inTime, notFound, summary, elapsed);
      && out.Ok?
      && (if Decide(w, c).reason == "doc-request" && KbCounts(w, reply, inTime, notFound)
          then out.value.route == KNOWLEDGE && out.value.rows == [] && out.value.rowCount == 0 && out.value.kb == reply
          else KeptWithPanel(r, out.value) && (out.value.kb == r.kb || (out.value.kb == reply && KbCounts(w, reply, inTime, notFound))))
  {
    var p := Decide(w, c);
    var raced := if inTime then KbArm(w, reply) else None;
    AnswerOrError(w, c, Ok(r), raced, notFound, summary);
    DocumentExactly(w, c);
    assert p.deliverable == Document <==> p.reason == "doc-request";
    assert Substantive(raced, notFound) == if KbCounts(w, reply, inTime, notFound) then reply else None;
  }

  /** A question the data arm cannot answer: a data question keeps its card; any other is
      answered by the documents, if they can, with the card's note in front unless the
      question was about documents. */
  lemma {:induction false} RefusalsExplained(w: Wording, c: Contract, r: AskResult, reply: Option<Answer>, inTime: bool,
                                            notFound: NotFound, summary: Option<string>, elapsed: nat)
    requires !DataHasSubstance(r)
    ensures var out := Dual(w, c, Ok(r), reply, inTime, notFound, summary, elapsed);
      && out.Ok?
      && (Decide(w, c).route == Data || !KbCounts(w, reply, inTime, notFound) ==> KeptWithPanel(r, out.value))
      && (Decide(w, c).route != Data && KbCounts(w, reply, inTime, notFound) ==>
            && out.value.route == KNOWLEDGE && out.value.kb == reply
            && (Decide(w, c).route != Knowledge && r.caliberNote.Some? ==>
                  out.value.caliberNote.Some? && r.caliberNote.value <= out.value.caliberNote.value))
  {
    var raced := if inTime then KbArm(w, reply) else None;
    assert Substantive(raced, notFound) == if KbCounts(w, reply, inTime, notFound) then reply else None;
  }

  /** No document panel is shown that the question did not ask for and no summary used. */
  lemma {:induction false} PanelsAreEarned(w: Wording, c: Contract, r: AskResult, reply: Option<Answer>, inTime: bool,
                                          notFound: NotFound, summary: Option<string>, elapsed: nat)
    requires r.kb == None && Decide(w, c).route == Data
    ensures var out := Dual(w, c, Ok(r), reply, inTime, notFound, summary, elapsed);
      out.value.kb.Some? ==> w.noun || (summary.Some? && DataHasSubstance(r))
  {
    var raced := if inTime then KbArm(w, reply) else None;
    AnswerOrError(w, c, Ok(r), raced, notFound, summary);
  }

  // ---------- questions split by the contract ----------

  datatype Routed = Routed(route: Route, question: string)

  function Only(routed: seq<Routed>, route: Route): seq<Routed> {
    if routed == [] then []
    else if routed[0].route == route then [routed[0]] + Only(routed[1..], route)
    else Only(routed[1..], route)
  }

  /** `split`. */
  function Split(routed: seq<Routed>): Option<(seq<Routed>, Routed)> {
    if exists i :: 0 <= i < |routed| && routed[i].route == Unknown then None
    else
      var kb := Only(routed, Knowledge);
      if kb == [] || Only(routed, Data) == [] || |kb| > 1 then None else Some((Only(routed, Data), kb[0]))
  }

  /** `fold_data`. */
  function FoldData(rs: seq<AskResult>, qs: seq<Routed>): Option<AskResult>
    requires |rs| == |qs|
  {
    if rs == [] then None
    else if |rs| == 1 then Some(rs[0])
    else Some(Compound(Paired(rs, qs), LongestOf(Paired(rs, qs))))
  }

  function Paired(rs: seq<AskResult>, qs: seq<Routed>): (r: seq<SubResult>)
    requires |rs| == |qs|
    ensures |r| == |rs|
  {
    if rs == [] then [] else [SubResult(qs[0].question, rs[0])] + Paired(rs[1..], qs[1..])
  }

  /** The first failure among the data questions, or all the results. */
  function AllOk(rs: seq<Result<AskResult>>): Result<seq<AskResult>> {
    if rs == [] then Ok([])
    else if rs[0].Err? then Err(rs[0].message)
    else
      var rest := AllOk(rs[1..]);
      if rest.Err? then rest else Ok([rs[0].value] + rest.value)
  }

  lemma {:induction false} AllOkLength(rs: seq<Result<AskResult>>)
    ensures AllOk(rs).Ok? ==> |AllOk(rs).value| == |rs|
    ensures AllOk(rs).Ok? <==> forall i :: 0 <= i < |rs| ==> rs[i].Ok?
  {
    if rs != [] {
      AllOkLength(rs[1..]);
    }
  }

  /** `run`, once the question splits: `rs` are the answers to its data questions. */
  function Run(qs: seq<Routed>, rs: seq<Result<AskResult>>, knowledge: Option<Answer>, summary: Option<string>): Result<Outcome>
    requires |rs| == |qs|
  {
    AllOkLength(rs);
    var all := AllOk(rs);
    if all.Err? && knowledge.None? then Err(all.message)
    else
      var data := if all.Err? then None else FoldData(all.value, qs);
      Ok(Outcome(data, knowledge, if data.Some? && knowledge.Some? then summary else None, None, None))
  }

  /** Every part is for one side or the other. */
  predicate TwoSided(routed: seq<Routed>) {
    routed == [] || ((routed[0].route == Data || routed[0].route == Knowledge) && TwoSided(routed[1..]))
  }

  lemma {:induction false} NoDocuments(routed: seq<Routed>)
    requires TwoSided(routed) && Only(routed, Knowledge) == []
    ensures Only(routed, Data) == routed
  {
    if routed != [] {
      NoDocuments(routed[1..]);
      assert routed == [routed[0]] + routed[1..];
    }
  }

  lemma {:induction false} OneDocument(routed: seq<Routed>) returns (j: nat)
    requires TwoSided(routed) && |Only(routed, Knowledge)| == 1
    ensures j < |routed| && Only(routed, Knowledge) == [routed[j]]
    ensures Only(routed, Data) == routed[..j] + routed[j + 1..]
  {
    var rest := routed[1..];
    if routed[0].route == Knowledge {
      NoDocuments(rest);
      j := 0;
    } else {
      var k := OneDocument(rest);
      j := k + 1;
      assert routed[..j] == [routed[0]] + rest[..k];
      assert routed[j + 1..] == rest[k + 1..];
    }
  }

  /** The parts a contract proposes (crates/agent/src/intent.rs:497-533): a part is mixed only
      if it is the whole question. */
  predicate Proposed(routed: seq<Routed>) {
    |routed| == 1 || forall i :: 0 <= i < |routed| ==> routed[i].route != Hybrid
  }

  predicate AllOwned(routed: seq<Routed>) {
    forall i :: 0 <= i < |routed| ==> routed[i].route != Unknown
  }

  lemma {:induction false} OwnedIsTwoSided(routed: seq<Routed>)
    requires AllOwned(routed) && forall i :: 0 <= i < |routed| ==> routed[i].route != Hybrid
    ensures TwoSided(routed)
  {
    if routed != [] {
      forall i | 0 <= i < |routed[1..]|
        ensures routed[1..][i].route != Unknown && routed[1..][i].route != Hybrid
      {
        assert routed[1..][i] == routed[i + 1];
      }
      OwnedIsTwoSided(routed[1..]);
    }
  }

  /** A question splits exactly if it has parts, all of them owned by one side, and one for
      the documents; and then nothing is lost: the data questions are all the others, in
      order. */
  lemma {:induction false} SplitTakesAll(routed: seq<Routed>) returns (j: nat)
    requires Proposed(routed)
    ensures Split(routed).Some? <==> AllOwned(routed) && |Only(routed, Knowledge)| == 1 && |routed| >= 2
    ensures Split(routed).Some? ==>
      j < |routed| && routed[j].route == Knowledge && Split(routed).value == (routed[..j] + routed[j + 1..], routed[j])
  {
    j := 0;
    if AllOwned(routed) && |Only(routed, Knowledge)| == 1 && |routed| >= 2 {
      OwnedIsTwoSided(routed);
      j := OneDocument(routed);
      OnlyOf(routed, Knowledge);
    } else if |routed| == 1 {
      OneIsNotBoth(routed[0]);
      assert routed == [routed[0]];
    }
  }

  lemma {:induction false} OneIsNotBoth(q: Routed)
    ensures Only([q], Data) == [] || Only([q], Knowledge) == []
  {
    assert Only([q][1..], Data) == [] && Only([q][1..], Knowledge) == [];
  }

  lemma {:induction false} OnlyOf(routed: seq<Routed>, route: Route)
    ensures forall q :: q in Only(routed, route) ==> q.route == route
  {
    if routed != [] {
      OnlyOf(routed[1..], route);
    }
  }

  /** Of parts that no contract proposes: a mixed one among others is asked of neither side. */
  lemma {:induction false} MixedPartsAreDropped(routed: seq<Routed>, q: Routed)
    requires Split(routed).Some? && q.route == Hybrid
    ensures q !in Split(routed).value.0 && q != Split(routed).value.1
  {
    OnlyOf(routed, Data);
    OnlyOf(routed, Knowledge);
  }

  /** The answer to a split question shows every data answer once, in order, under its own
      question, one level deep; a single answer that is itself a container is opened. */
  lemma {:induction false} SplitAnswersShown(qs: seq<Routed>, rs: seq<Result<AskResult>>, knowledge: Option<Answer>,
                                            summary: Option<string>, question: string, elapsed: nat)
    requires |rs| == |qs| >= 1 && forall i :: 0 <= i < |rs| ==> rs[i].Ok?
    ensures Run(qs, rs, knowledge, summary).Ok?
    ensures var out := IntoAskResult(Run(qs, rs, knowledge, summary).value, question, elapsed);
      && out.kb == knowledge && out.route == "compound"
      && (|rs| >= 2 ==> |out.subs| == |rs| && forall i :: 0 <= i < |rs| ==> out.subs[i] == SubResult(qs[i].question, rs[i].value))
      && (|rs| == 1 ==> out.subs == if rs[0].value.subs == [] then [SubResult(question, rs[0].value)] else rs[0].value.subs)
  {
    AllOkLength(rs);
    AllOkValues(rs);
    var vs := AllOk(rs).value;
    forall i: nat | i < |rs|
      ensures Paired(vs, qs)[i] == SubResult(qs[i].question, rs[i].value)
    {
      PairedAt(vs, qs, i);
    }
  }

  lemma {:induction false} AllOkValues(rs: seq<Result<AskResult>>)
    requires AllOk(rs).Ok?
    ensures |AllOk(rs).value| == |rs| && forall i :: 0 <= i < |rs| ==> rs[i] == Ok(AllOk(rs).value[i])
  {
    if rs != [] {
      AllOkValues(rs[1..]);
    }
  }

  lemma {:induction false} PairedAt(rs: seq<AskResult>, qs: seq<Routed>, i: nat)
    requires |rs| == |qs| && i < |rs|
    ensures Paired(rs, qs)[i] == SubResult(qs[i].question, rs[i])
  {
    if i > 0 {
      PairedAt(rs[1..], qs[1..], i - 1);
    }
  }

  /** One arm failing does not take the other with it. */
  lemma {:induction false} ArmsFailApart(qs: seq<Routed>, rs: seq<Result<AskResult>>, knowledge: Option<Answer>, summary: Option<string>)
    requires |rs| == |qs| >= 1
    ensures var o := Run(qs, rs, knowledge, summary);
      && (o.Err? <==> knowledge.None? && exists i :: 0 <= i < |rs| && rs[i].Err?)
      && (o.Ok? ==> o.value.knowledge == knowledge && (o.value.data.Some? <==> forall i :: 0 <= i < |rs| ==> rs[i].Ok?))
  {
    AllOkLength(rs);
  }
}
