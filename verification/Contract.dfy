/** The fact contract: an answer is shown only if every claim in it is backed by a fact
    cited right after it (crates/agent/src/answer_contract.rs:239-529). */
module Contract {
  import opened Text
  import opened References
  import opened Stripping
  import opened Numerals
  import opened Claims
  import opened Locality
  import opened Facts
  import opened Ledger
  import opened Clauses
  import opened TextFacts

  // ---------- segments ----------

  function Later(a: nat, b: nat): nat { if a < b then b else a }

  /** Where the segment of a citation at byte `start` begins; it never reaches back over
      `previous`. A citation right after a stop looks one clause further back. */
  function SegmentStart(t: Text, start: nat, previous: nat): nat
    requires previous <= start <= |t|
  {
    var s := Later(ClauseStart(t, start), previous);
    if s <= start && Blank(t[s..start]) && s > previous then
      match LastStop(t, s)
      case None => s
      case Some(stop) => Later(ClauseStart(t, stop), previous)
    else s
  }

  function EndBefore(groups: seq<Group>, k: nat): nat
    requires k <= |groups|
  {
    if k == 0 then 0 else groups[k - 1].end
  }

  /** What preparation (masking, then rewriting numerals) guarantees about the text `n`
      the checker reads: every group is blank, and starts and ends between characters. */
  ghost predicate Prepared(n: Text, groups: seq<Group>) {
    && Utf8(n)
    && forall k :: 0 <= k < |groups| ==> Placed(n, groups, k)
  }

  ghost predicate Placed(n: Text, groups: seq<Group>, k: nat)
    requires k < |groups|
  {
    var g := groups[k];
    && EndBefore(groups, k) <= g.start && g.start + 3 <= g.end <= |n|
    && n[g.start] == SPACE && n[g.start + 1] == SPACE && n[g.end - 1] == SPACE
    && Boundary(n, g.end)
    && g.ids != []
  }

  function SegmentOf(n: Text, groups: seq<Group>, k: nat): nat
    requires k < |groups| && EndBefore(groups, k) <= groups[k].start <= |n|
  {
    SegmentStart(n, groups[k].start, EndBefore(groups, k))
  }

  lemma {:induction false} ClauseStartEdge(t: Text, end: nat)
    requires Utf8(t) && Boundary(t, end) && end <= |t|
    ensures ClauseStart(t, end) <= end && Boundary(t, ClauseStart(t, end))
    ensures NoNeighbour(CharBefore(t, ClauseStart(t, end)))
  {
    if LastStop(t, end).Some? {
      var p := LastStop(t, end).value;
      assert Whole(t, p);
      var q := p + Width(t[p].ch);
      assert q <= end;
      CharBeforeWhole(t, p, q);
    }
  }

  lemma {:induction false} CharBeforeWhole(t: Text, p: nat, k: nat)
    requires p < k <= |t| && t[p].Lead? && forall i :: p < i < k ==> t[i].Cont?
    ensures CharBefore(t, k) == Some(t[p].ch)
    decreases k
  {
    if k > p + 1 {
      CharBeforeWhole(t, p, k - 1);
    }
  }

  /** A byte position a segment may start at. */
  ghost predicate Edge(t: Text, i: nat) {
    i <= |t| && Boundary(t, i) && NoNeighbour(CharBefore(t, i))
  }

  lemma {:induction false} SegmentStartEdge(t: Text, start: nat, previous: nat)
    requires Utf8(t) && previous <= start <= |t| && Boundary(t, start) && Edge(t, previous)
    ensures previous <= SegmentStart(t, start, previous) <= start
    ensures Edge(t, SegmentStart(t, start, previous))
  {
    ClauseStartEdge(t, start);
    var s := Later(ClauseStart(t, start), previous);
    if LastStop(t, s).Some? {
      ClauseStartEdge(t, LastStop(t, s).value);
    }
  }

  /** Every segment the checker cuts out is a cut in the sense of the locality lemmas. */
  lemma {:induction false} SegmentIsCut(n: Text, groups: seq<Group>, k: nat)
    requires Prepared(n, groups) && k < |groups|
    ensures Placed(n, groups, k)
    ensures EndBefore(groups, k) <= SegmentOf(n, groups, k) <= groups[k].start
    ensures Cut(n, SegmentOf(n, groups, k), groups[k].start)
  {
    assert Placed(n, groups, k);
    if k > 0 {
      assert Placed(n, groups, k - 1);
      assert CharBefore(n, groups[k - 1].end) == Some(' ');
    }
    SegmentStartEdge(n, groups[k].start, EndBefore(groups, k));
  }

  // ---------- what is checked for one group ----------

  /** `facts.iter().find(|fact| fact.id == id)`. */
  function FindFact(facts: seq<Fact>, id: Text): (r: Option<Fact>)
    ensures r.Some? ==> r.value in facts && r.value.id == id
    ensures r.None? ==> forall f :: f in facts ==> f.id != id
  {
    if facts == [] then None
    else if facts[0].id == id then Some(facts[0])
    else FindFact(facts[1..], id)
  }

  function CitedFacts(facts: seq<Fact>, ids: seq<Text>): (r: seq<Fact>)
    ensures forall f :: f in r ==> f in facts && f.id in ids
  {
    if ids == [] then []
    else match FindFact(facts, ids[0])
      case None => CitedFacts(facts, ids[1..])
      case Some(f) => [f] + CitedFacts(facts, ids[1..])
  }

  function ScopeKey(f: Fact): Text {
    f.namespace + [Lead('|')] + Joined(f.subjects) + [Lead('|')] + f.metric
  }

  function Joined(parts: seq<Text>): Text {
    if parts == [] then [] else if |parts| == 1 then parts[0] else parts[0] + [Lead('/')] + Joined(parts[1..])
  }

  predicate OneScope(cited: seq<Fact>) {
    forall f, g :: f in cited && g in cited ==> ScopeKey(f) == ScopeKey(g)
  }

  predicate Hybrid(facts: seq<Fact>) {
    (exists f :: f in facts && f.namespace == Ascii("DATA")) && (exists f :: f in facts && f.namespace == Ascii("KB"))
  }

  predicate Says(segment: Text, cues: seq<Text>) {
    exists c :: c in cues && Contains(segment, c)
  }

  /** In a two-sided contract, wording that names a side cites only that side. */
  predicate Worded(v: Vocabulary, facts: seq<Fact>, cited: seq<Fact>, segment: Text) {
    Hybrid(facts) ==>
      && (Says(segment, v.dataCues) ==> forall f :: f in cited ==> f.namespace == Ascii("DATA"))
      && (Says(segment, v.knowledgeCues) ==> forall f :: f in cited ==> f.namespace == Ascii("KB"))
  }

  predicate NumberBacked(v: Vocabulary, cited: seq<Fact>, scene: Scene, c: Claim) {
    exists f :: f in cited && SupportsNumber(v, f, scene, c)
  }

  predicate CueBacked(v: Vocabulary, cited: seq<Fact>, scene: Scene, c: Claim) {
    exists f :: f in cited && SupportsCue(v, f, scene, c)
  }

  /** Checks that are not about a particular claim: wording, one scope for several
      numbers, and a fitting fact when the segment names labels but no number. */
  predicate GroupFits(v: Vocabulary, facts: seq<Fact>, cited: seq<Fact>, scene: Scene) {
    && Worded(v, facts, cited, scene.segment)
    && (|scene.claims| > 1 ==> OneScope(cited))
    && (scene.claims == [] && (scene.subjects != [] || scene.metrics != []) ==>
          exists f :: f in cited && Fits(v, f, scene))
  }

  /** The metric an omitted metric may refer back to, after a group without errors. */
  function NextMetric(cited: seq<Fact>, previous: Option<Text>): Option<Text> {
    if cited != [] && forall f :: f in cited ==> f.metric == cited[0].metric then Some(cited[0].metric)
    else previous
  }

  function MetricBefore(facts: seq<Fact>, groups: seq<Group>, k: nat): Option<Text>
    requires k <= |groups|
  {
    if k == 0 then None
    else NextMetric(CitedFacts(facts, groups[k - 1].ids), MetricBefore(facts, groups, k - 1))
  }

  /** Everything the checker knows about group `k`, its claims taken from the whole text. */
  function SceneOf(v: Vocabulary, facts: seq<Fact>, n: Text, groups: seq<Group>, k: nat,
                   previous: Option<Text>): Scene
    requires Prepared(n, groups) && k < |groups|
  {
    SegmentIsCut(n, groups, k);
    var a, b := SegmentOf(n, groups, k), groups[k].start;
    Scene(n[a..b], Within(Numbers(n, 0), a, b),
          Mentioned(v, n[a..b], SubjectLabels(facts)), Mentioned(v, n[a..b], MetricLabels(facts)),
          previous)
  }

  function CuesOf(n: Text, groups: seq<Group>, k: nat): seq<Claim>
    requires Prepared(n, groups) && k < |groups|
  {
    SegmentIsCut(n, groups, k);
    Within(Cues(n, 0), SegmentOf(n, groups, k), groups[k].start)
  }

  /** Group `k` raises no error, given the metric it may refer back to. */
  ghost predicate Passes(v: Vocabulary, facts: seq<Fact>, n: Text, groups: seq<Group>, k: nat,
                         previous: Option<Text>)
    requires Prepared(n, groups) && k < |groups|
  {
    var cited, scene := CitedFacts(facts, groups[k].ids), SceneOf(v, facts, n, groups, k, previous);
    cited == [] ||
    (&& GroupFits(v, facts, cited, scene)
     && AllNumbersBacked(v, cited, scene, scene.claims)
     && AllCuesBacked(v, cited, scene, CuesOf(n, groups, k)))
  }

  ghost predicate AllNumbersBacked(v: Vocabulary, cited: seq<Fact>, scene: Scene, cs: seq<Claim>) {
    forall c :: c in cs ==> NumberBacked(v, cited, scene, c)
  }

  ghost predicate AllCuesBacked(v: Vocabulary, cited: seq<Fact>, scene: Scene, cs: seq<Claim>) {
    forall c :: c in cs ==> CueBacked(v, cited, scene, c)
  }

  datatype Problem =
    | UnknownReference(id: Text)
    | UnparsedNumeral(run: Run)
    | WrongSide
    | MixedScopes
    | UnsupportedNumber(raw: Text)
    | UnsupportedCue(kind: Kind)
    | LabelsDiffer
    | Uncited(claim: Claim)

  /** `Err` lists the problems; the source also sorts and deduplicates them. */
  datatype Verdict = Ok(shown: Text) | Err(problems: seq<Problem>)

  /** The body of the loop over groups: claims are extracted from the segment alone. */
  method CheckGroup(v: Vocabulary, facts: seq<Fact>, n: Text, ghost groups: seq<Group>, ghost k: nat,
                    group: Group, segmentStart: nat, previous: Option<Text>)
    returns (problems: seq<Problem>, claims: seq<Claim>, cues: seq<Claim>, cited: seq<Fact>)
    requires Prepared(n, groups) && k < |groups| && group == groups[k]
    requires EndBefore(groups, k) <= segmentStart <= group.start <= |n| && segmentStart == SegmentOf(n, groups, k)
    ensures cited == CitedFacts(facts, group.ids)
    ensures claims == SceneOf(v, facts, n, groups, k, previous).claims
    ensures cues == CuesOf(n, groups, k)
    ensures problems == [] <==> Passes(v, facts, n, groups, k, previous)
  {
    SegmentIsCut(n, groups, k);
    var segment := n[segmentStart..group.start];
    var found := ExtractNumericClaims(segment);
    claims := Shifted(found, segmentStart);
    NumbersLocal(n, segmentStart, group.start);
    cues := Shifted(Cues(segment, 0), segmentStart);
    CuesLocal(n, segmentStart, group.start);
    cited := CitedFacts(facts, group.ids);
    problems := [];
    if cited == [] {
      return;
    }
    var scene := Scene(segment, claims, Mentioned(v, segment, SubjectLabels(facts)),
                       Mentioned(v, segment, MetricLabels(facts)), previous);
    problems := CheckFit(v, facts, cited, scene);
    var numbers := CheckNumbers(v, cited, scene, claims);
    var words := CheckCues(v, cited, scene, cues);
    problems := problems + numbers + words;
  }

  method CheckFit(v: Vocabulary, facts: seq<Fact>, cited: seq<Fact>, scene: Scene) returns (problems: seq<Problem>)
    ensures problems == [] <==> GroupFits(v, facts, cited, scene)
  {
    problems := [];
    if !Worded(v, facts, cited, scene.segment) {
      problems := problems + [WrongSide];
    }
    if |scene.claims| > 1 && !OneScope(cited) {
      problems := problems + [MixedScopes];
    }
    if scene.claims == [] && (scene.subjects != [] || scene.metrics != [])
       && !(exists f :: f in cited && Fits(v, f, scene)) {
      problems := problems + [LabelsDiffer];
    }
  }

  method CheckNumbers(v: Vocabulary, cited: seq<Fact>, scene: Scene, claims: seq<Claim>)
    returns (problems: seq<Problem>)
    ensures problems == [] <==> AllNumbersBacked(v, cited, scene, claims)
  {
    problems := [];
    for i := 0 to |claims|
      invariant problems == [] <==> forall j :: 0 <= j < i ==> NumberBacked(v, cited, scene, claims[j])
    {
      if !NumberBacked(v, cited, scene, claims[i]) {
        problems := problems + [UnsupportedNumber(if claims[i].what.Number? then claims[i].what.raw else [])];
      }
    }
  }

  method CheckCues(v: Vocabulary, cited: seq<Fact>, scene: Scene, cues: seq<Claim>)
    returns (problems: seq<Problem>)
    ensures problems == [] <==> AllCuesBacked(v, cited, scene, cues)
  {
    problems := [];
    for i := 0 to |cues|
      invariant problems == [] <==> forall j :: 0 <= j < i ==> CueBacked(v, cited, scene, cues[j])
    {
      if !CueBacked(v, cited, scene, cues[i]) {
        problems := problems + [UnsupportedCue(if cues[i].what.Cue? then cues[i].what.kind else Highest)];
      }
    }
  }

  // ---------- associating every claim of the text with a group ----------

  function Spans(cs: seq<Claim>): seq<(nat, nat)> {
    if cs == [] then [] else [(cs[0].start, cs[0].end)] + Spans(cs[1..])
  }

  predicate InSegment(n: Text, groups: seq<Group>, k: nat, c: Claim)
    requires Prepared(n, groups) && k < |groups|
  {
    SegmentIsCut(n, groups, k);
    SegmentOf(n, groups, k) <= c.start && c.end <= groups[k].start
  }

  /** Claim `c` lies in the segment of one of the first `m` groups. */
  ghost predicate Assigned(n: Text, groups: seq<Group>, m: nat, c: Claim)
    requires Prepared(n, groups) && m <= |groups|
  {
    exists k :: 0 <= k < m && InSegment(n, groups, k, c)
  }

  /** The first `m` claims lie in some group's segment. */
  ghost predicate AllAssigned(n: Text, groups: seq<Group>, cs: seq<Claim>, m: nat)
    requires Prepared(n, groups) && m <= |cs|
  {
    m == 0 || (AllAssigned(n, groups, cs, m - 1) && Assigned(n, groups, |groups|, cs[m - 1]))
  }

  lemma {:induction false} AllAssignedAt(n: Text, groups: seq<Group>, cs: seq<Claim>, m: nat, i: nat)
    requires Prepared(n, groups) && i < m <= |cs| && AllAssigned(n, groups, cs, m)
    ensures Assigned(n, groups, |groups|, cs[i])
  {
    if i < m - 1 {
      AllAssignedAt(n, groups, cs, m - 1, i);
    }
  }

  lemma {:induction false} AllAssignedBuild(n: Text, groups: seq<Group>, cs: seq<Claim>, m: nat)
    requires Prepared(n, groups) && m <= |cs|
    requires forall c :: c in cs ==> Assigned(n, groups, |groups|, c)
    ensures AllAssigned(n, groups, cs, m)
  {
    if m > 0 {
      AllAssignedBuild(n, groups, cs, m - 1);
    }
  }

  lemma {:induction false} SpansMembers(cs: seq<Claim>, s: (nat, nat))
    ensures s in Spans(cs) <==> exists i :: 0 <= i < |cs| && (cs[i].start, cs[i].end) == s
  {
    if cs != [] {
      SpansMembers(cs[1..], s);
      if s in Spans(cs[1..]) {
        var i :| 0 <= i < |cs[1..]| && (cs[1..][i].start, cs[1..][i].end) == s;
        assert cs[i + 1] == cs[1..][i];
      }
      if i :| 0 <= i < |cs| && (cs[i].start, cs[i].end) == s {
        if i > 0 {
          assert cs[1..][i - 1] == cs[i];
        }
      }
    }
  }

  /** A claim's span is among those of a segment's claims exactly if the claim lies in the
      segment: this is what matching by span establishes. */
  lemma {:induction false} SpansWithin(cs: seq<Claim>, a: nat, b: nat, c: Claim)
    requires c in cs
    ensures (c.start, c.end) in Spans(Within(cs, a, b)) <==> a <= c.start && c.end <= b
  {
    var w := Within(cs, a, b);
    SpansMembers(w, (c.start, c.end));
    WithinMembers(cs, a, b, c);
    if (c.start, c.end) in Spans(w) {
      var i :| 0 <= i < |w| && (w[i].start, w[i].end) == (c.start, c.end);
      WithinMembers(cs, a, b, w[i]);
    }
    if c in w {
      var i :| 0 <= i < |w| && w[i] == c;
    }
  }

  lemma {:induction false} WithinMembers(cs: seq<Claim>, a: nat, b: nat, c: Claim)
    ensures c in Within(cs, a, b) <==> c in cs && a <= c.start && c.end <= b
  {
    if cs != [] {
      WithinMembers(cs[1..], a, b, c);
    }
  }

  // ---------- the verdict ----------

  ghost predicate Known(facts: seq<Fact>, toks: seq<Token>) {
    forall i :: 0 <= i < |toks| ==> FindFact(facts, toks[i].id).Some?
  }

  /** The text the checker reads: citations blanked, numerals rewritten. */
  ghost function Readable(text: Text, keep: Keep, cn: Worth): Text {
    Normalized(MaskOf(text, Tokens(text, 0)), keep, cn)
  }

  ghost function GroupsIn(text: Text): seq<Group> {
    GroupsOf(Tokens(text, 0), text)
  }

  lemma {:induction false} BlankStays(text: Text, keep: Keep, cn: Worth, k: nat, i: nat)
    requires Utf8(text)
    requires k < |Tokens(text, 0)| && Tokens(text, 0)[k].start <= i < Tokens(text, 0)[k].end && i < |text|
    ensures Readable(text, keep, cn)[i] == SPACE
  {
    var toks := Tokens(text, 0);
    var m := MaskOf(text, toks);
    assert Inside(toks, i);
    assert m[i] == SPACE;
    TokensOrdered(text, 0);
    MaskedUtf8(text, toks, m);
    OffsetsStable(m, keep, cn);
    assert StableAt(m[i], Readable(text, keep, cn)[i]);
  }

  lemma {:induction false} ReadableUtf8(text: Text, keep: Keep, cn: Worth)
    requires Utf8(text)
    ensures Utf8(Readable(text, keep, cn)) && |Readable(text, keep, cn)| == |text|
    ensures forall i: nat :: i <= |text| && Boundary(text, i) ==> Boundary(Readable(text, keep, cn), i)
  {
    var toks := Tokens(text, 0);
    TokensOrdered(text, 0);
    MaskedUtf8(text, toks, MaskOf(text, toks));
    OffsetsStable(MaskOf(text, toks), keep, cn);
  }

  lemma {:induction false} TokenBlank(text: Text, keep: Keep, cn: Worth, k: nat)
    requires Utf8(text) && k < |Tokens(text, 0)|
    ensures var tok := Tokens(text, 0)[k];
      && tok.start + 3 <= tok.end <= |text| && Boundary(text, tok.end)
      && Readable(text, keep, cn)[tok.start] == SPACE && Readable(text, keep, cn)[tok.start + 1] == SPACE
      && Readable(text, keep, cn)[tok.end - 1] == SPACE
  {
    var toks := Tokens(text, 0);
    TokensOrdered(text, 0);
    SpreadBounds(toks, 0, |text|);
    BlankStays(text, keep, cn, k, toks[k].start);
    BlankStays(text, keep, cn, k, toks[k].start + 1);
    BlankStays(text, keep, cn, k, toks[k].end - 1);
    TokenEndBoundary(toks, text, k);
  }

  lemma {:induction false} GroupBlank(text: Text, keep: Keep, cn: Worth, g: Group)
    requires Utf8(text) && g.start + 3 <= g.end <= |text|
    requires StartsToken(Tokens(text, 0), g.start) && EndsToken(Tokens(text, 0), g.end)
    ensures Readable(text, keep, cn)[g.start] == SPACE && Readable(text, keep, cn)[g.start + 1] == SPACE
    ensures Readable(text, keep, cn)[g.end - 1] == SPACE
    ensures Boundary(text, g.end)
  {
    var i :| 0 <= i < |Tokens(text, 0)| && Tokens(text, 0)[i].start == g.start;
    var j :| 0 <= j < |Tokens(text, 0)| && Tokens(text, 0)[j].end == g.end;
    TokenBlank(text, keep, cn, i);
    TokenBlank(text, keep, cn, j);
  }

  lemma {:induction false} GroupAt(text: Text, k: nat)
    requires k < |GroupsIn(text)|
    ensures var g := GroupsIn(text)[k];
      && EndBefore(GroupsIn(text), k) <= g.start && g.start + 3 <= g.end <= |text| && g.ids != []
      && StartsToken(Tokens(text, 0), g.start) && EndsToken(Tokens(text, 0), g.end)
  {
    var toks, groups := Tokens(text, 0), GroupsIn(text);
    TokensOrdered(text, 0);
    GroupsOfOrdered(toks, text);
    GroupsOrderedAt(groups, |text|, k);
  }

  lemma {:induction false} ReadableBoundary(text: Text, keep: Keep, cn: Worth, i: nat)
    requires Utf8(text) && i <= |text| && Boundary(text, i)
    ensures |Readable(text, keep, cn)| == |text| && Boundary(Readable(text, keep, cn), i)
  {
    ReadableUtf8(text, keep, cn);
  }

  lemma {:induction false} GroupPlaced(text: Text, keep: Keep, cn: Worth, k: nat)
    requires Utf8(text) && k < |GroupsIn(text)|
    ensures Placed(Readable(text, keep, cn), GroupsIn(text), k)
  {
    GroupAt(text, k);
    var g := GroupsIn(text)[k];
    GroupBlank(text, keep, cn, g);
    ReadableBoundary(text, keep, cn, g.end);
  }

  /** Masking and rewriting leave every citation group blank and in place. */
  lemma {:induction false} ReadablePrepared(text: Text, keep: Keep, cn: Worth)
    requires Utf8(text)
    ensures Prepared(Readable(text, keep, cn), GroupsIn(text))
  {
    ReadableUtf8(text, keep, cn);
    var groups := GroupsIn(text);
    forall k | 0 <= k < |groups|
      ensures Placed(Readable(text, keep, cn), groups, k)
    {
      GroupPlaced(text, keep, cn, k);
    }
  }

  lemma {:induction false} TokenEndBoundary(toks: seq<Token>, t: Text, j: nat)
    requires Utf8(t) && Literal(toks, t) && j < |toks| && toks[j].start < toks[j].end
    ensures toks[j].end <= |t| && Boundary(t, toks[j].end)
  {
    var s := t[toks[j].start..toks[j].end];
    assert s[|s| - 1] == t[toks[j].end - 1];
    assert Whole(t, toks[j].end - 1);
  }

  /** When the contract accepts a text. */
  ghost predicate Accepts(v: Vocabulary, facts: seq<Fact>, text: Text, keep: Keep, cn: Worth)
    requires Utf8(text)
  {
    ReadablePrepared(text, keep, cn);
    var n, groups := Readable(text, keep, cn), GroupsIn(text);
    && Known(facts, Tokens(text, 0))
    && AllWorth(MaskOf(text, Tokens(text, 0)), keep, cn)
    && AllPass(v, facts, n, groups, |groups|)
    && AllAssigned(n, groups, Numbers(n, 0), |Numbers(n, 0)|)
    && AllAssigned(n, groups, Cues(n, 0), |Cues(n, 0)|)
  }

  /** Group `k` raises no error after groups that raised none. */
  ghost predicate PassesAt(v: Vocabulary, facts: seq<Fact>, n: Text, groups: seq<Group>, k: nat)
    requires Prepared(n, groups) && k < |groups|
  {
    Passes(v, facts, n, groups, k, MetricBefore(facts, groups, k))
  }

  /** The first `m` groups raise no error. */
  ghost predicate AllPass(v: Vocabulary, facts: seq<Fact>, n: Text, groups: seq<Group>, m: nat)
    requires Prepared(n, groups) && m <= |groups|
  {
    forall k :: 0 <= k < m ==> PassesAt(v, facts, n, groups, k)
  }

  lemma {:induction false} AllPassStep(v: Vocabulary, facts: seq<Fact>, n: Text, groups: seq<Group>, k: nat)
    requires Prepared(n, groups) && k < |groups|
    ensures AllPass(v, facts, n, groups, k + 1) <==> AllPass(v, facts, n, groups, k) && PassesAt(v, facts, n, groups, k)
  {
  }

  // ---------- the checker itself ----------

  class AnswerContract {
    var facts: seq<Fact>

    /** Ids are handed out in sequence, so they are unique (`Ledger.IdsUnique`). */
    ghost predicate Valid()
      reads this
    {
      Sequential(facts)
    }

    constructor ()
      ensures Valid() && facts == []
    {
      facts := [];
    }

    /** `from_facts`: of the first inputs, at most as many as a contract holds, one fact for
        each that has a number. */
    constructor FromFacts(inputs: seq<FactInput>)
      ensures Valid()
      ensures facts == AddAll([], InputDrafts(inputs[..Least(|inputs|, MAX_FACTS)]))
    {
      facts := [];
      new;
      var n := Least(|inputs|, MAX_FACTS);
      ghost var taken := inputs[..n];
      AddAllSequential([], InputDrafts(taken));
      for k := 0 to n
        invariant facts == AddAll([], InputDrafts(inputs[..k]))
      {
        InputsStep(inputs, k);
        PushInput(inputs[k]);
      }
    }

    /** An input without a number is passed over. */
    method PushInput(f: FactInput)
      modifies this
      ensures facts == InputPushed(old(facts), f)
    {
      if CellNumbers(f.value) != [] {
        PushFact(DraftOf(f));
      }
    }

    method PushFact(d: Draft)
      modifies this
      ensures old(Valid()) ==> Valid()
      ensures facts == old(facts) + [Numbered(old(facts), d)]
    {
      if Valid() {
        OneMore(facts, d);
      }
      facts := facts + [Numbered(facts, d)];
    }

    /** Adds the facts of the first `limit` rows, in order, until the contract is full. */
    method PushTable(t: Table, limit: nat)
      requires Valid()
      modifies this
      ensures Valid()
      ensures facts == TablePushed(old(facts), t, Least(limit, |t.rows|))
    {
      var n := Least(limit, |t.rows|);
      TableKeepsSequence(facts, t, n);
      for r := 0 to n
        invariant facts == TablePushed(old(facts), t, r)
      {
        if |facts| < MAX_FACTS {
          PushRow(t, t.rows[r]);
        }
      }
    }

    method PushRow(t: Table, row: seq<Cell>)
      modifies this
      ensures facts == RowPushed(old(facts), t, row, |row|)
    {
      for c := 0 to |row|
        invariant facts == RowPushed(old(facts), t, row, c)
      {
        if IsMeasure(row[c]) && |facts| < MAX_FACTS {
          PushFact(CellDraft(t, row, c));
        }
      }
    }

    /** Facts from running text; false if the call ends in a panic, the facts added so far
        staying. */
    method PushText(p: Passage, lab: Labeller) returns (done: bool)
      requires Valid()
      modifies this
      ensures Valid()
      ensures facts == TextPushed(old(facts), p, lab).facts && done == TextPushed(old(facts), p, lab).Done?
    {
      TextKeepsSequence(facts, p, lab);
      NumbersFit(p.text, 0);
      PushNumbers(p, lab);
      var clauses := LocalClauses(p.text);
      ghost var numbered := facts;
      for k := 0 to |clauses|
        invariant ClausesPushed(facts, p, clauses[k..], lab) == ClausesPushed(numbered, p, clauses, lab)
      {
        assert clauses[k..][0] == clauses[k] && clauses[k..][1..] == clauses[k + 1..];
        if |facts| >= MAX_FACTS { break; }
        done := PushCues(p, clauses[k], lab);
        if !done { return; }
      }
      assert clauses[|clauses|..] == [];
      done := true;
    }

    method PushNumbers(p: Passage, lab: Labeller)
      requires AllNumbers(Numbers(p.text, 0)) && InText(Numbers(p.text, 0), |p.text|)
      modifies this
      ensures facts == NumbersPushed(old(facts), p, Numbers(p.text, 0), lab)
    {
      var claims := ExtractNumericClaims(p.text);
      for k := 0 to |claims|
        invariant AllNumbers(claims[k..]) && InText(claims[k..], |p.text|)
        invariant NumbersPushed(facts, p, claims[k..], lab) == NumbersPushed(old(facts), p, claims, lab)
      {
        assert claims[k..][0] == claims[k] && claims[k..][1..] == claims[k + 1..];
        if |facts| >= MAX_FACTS { break; }
        facts := NumberPushed(facts, p, claims[k], lab);
      }
      assert claims[|claims|..] == [];
    }

    method PushCues(p: Passage, clause: Clause, lab: Labeller) returns (done: bool)
      modifies this
      ensures facts == CuesPushed(old(facts), p, clause, CuesIn(p.text, clause), lab).facts
      ensures done == CuesPushed(old(facts), p, clause, CuesIn(p.text, clause), lab).Done?
    {
      var cues := CuesIn(p.text, clause);
      for k := 0 to |cues|
        invariant CuesPushed(facts, p, clause, cues[k..], lab) == CuesPushed(old(facts), p, clause, cues, lab)
      {
        assert cues[k..][0] == cues[k] && cues[k..][1..] == cues[k + 1..];
        if |facts| >= MAX_FACTS { break; }
        if !Sliceable(p.text, clause, cues[k]) { return false; }
        facts := CuePushed(facts, p, clause, cues[k], lab);
      }
      assert cues[|cues|..] == [];
      return true;
    }

    /** Returns the text without its citations, or the problems found. It accepts exactly
        the texts that `Accepts` describes. */
    method Validate(text: Text, v: Vocabulary, keep: Keep, cn: Worth) returns (r: Verdict)
      requires Utf8(text)
      ensures r.Ok? <==> Accepts(v, facts, text, keep, cn)
      ensures r.Ok? ==> Spread(Tokens(text, 0), 0, |text|)
      ensures r.Ok? ==> r.shown == Tidy(Removed(text, Tokens(text, 0), 0))
    {
      var references := ReferenceTokens(text);
      TokensOrdered(text, 0);
      var unknown := CheckReferences(facts, references);
      var masked := MaskReferences(text, references);
      var n, unparsed := NormalizeChineseNumerals(masked, keep, cn);
      var groups := ReferenceGroups(references, text);
      ReadablePrepared(text, keep, cn);
      var errors := unknown;
      for i := 0 to |unparsed|
        invariant errors == [] <==> unknown == [] && i == 0
      {
        errors := errors + [UnparsedNumeral(unparsed[i])];
      }
      var inGroups, associated, associatedCues := CheckGroups(v, facts, n, groups);
      errors := errors + inGroups;
      var all := ExtractNumericClaims(n);
      var uncited := CheckAssociated(n, groups, all, associated);
      var uncitedCues := CheckAssociated(n, groups, Cues(n, 0), associatedCues);
      errors := errors + uncited + uncitedCues;
      if errors == [] {
        var shown := StripReferences(text, references);
        return Ok(shown);
      } else {
        return Err(errors);
      }
    }
  }

  function InputPushed(facts: seq<Fact>, f: FactInput): seq<Fact> {
    if CellNumbers(f.value) == [] then facts else facts + [Numbered(facts, DraftOf(f))]
  }

  lemma {:induction false} InputsStep(inputs: seq<FactInput>, k: nat)
    requires k < |inputs|
    ensures var now := AddAll([], InputDrafts(inputs[..k]));
      AddAll([], InputDrafts(inputs[..k + 1])) == InputPushed(now, inputs[k])
  {
    var more, drafts := inputs[..k + 1], InputDrafts(inputs[..k]);
    assert more[..k] == inputs[..k] && more[k] == inputs[k];
    if CellNumbers(inputs[k].value) != [] {
      var all := drafts + [DraftOf(inputs[k])];
      assert InputDrafts(more) == all;
      assert all[..|drafts|] == drafts;
    }
  }

  method CheckReferences(facts: seq<Fact>, references: seq<Token>) returns (errors: seq<Problem>)
    ensures errors == [] <==> Known(facts, references)
  {
    errors := [];
    for i := 0 to |references|
      invariant errors == [] <==> forall j :: 0 <= j < i ==> FindFact(facts, references[j].id).Some?
    {
      if FindFact(facts, references[i].id).None? {
        errors := errors + [UnknownReference(references[i].id)];
      }
    }
  }

  /** Spans of the claims in the segments of the first `m` groups. */
  ghost function SpansOf(n: Text, groups: seq<Group>, m: nat, cs: seq<Claim>): seq<(nat, nat)>
    requires Prepared(n, groups) && m <= |groups|
  {
    if m == 0 then []
    else
      SegmentIsCut(n, groups, m - 1);
      SpansOf(n, groups, m - 1, cs) + Spans(Within(cs, SegmentOf(n, groups, m - 1), groups[m - 1].start))
  }

  lemma {:induction false} SpansOfNext(n: Text, groups: seq<Group>, m: nat, cs: seq<Claim>, mine: seq<Claim>)
    requires Prepared(n, groups) && m < |groups| && EndBefore(groups, m) <= groups[m].start <= |n|
    requires mine == Within(cs, SegmentOf(n, groups, m), groups[m].start)
    ensures SpansOf(n, groups, m + 1, cs) == SpansOf(n, groups, m, cs) + Spans(mine)
  {
  }

  lemma {:induction false} AssignedNext(n: Text, groups: seq<Group>, m: nat, c: Claim)
    requires Prepared(n, groups) && m < |groups|
    ensures Assigned(n, groups, m + 1, c) <==> Assigned(n, groups, m, c) || InSegment(n, groups, m, c)
  {
    if k :| 0 <= k < m && InSegment(n, groups, k, c) {
      assert InSegment(n, groups, k, c);
    }
  }

  lemma {:induction false} SpanInNext(n: Text, groups: seq<Group>, m: nat, cs: seq<Claim>, c: Claim)
    requires Prepared(n, groups) && m < |groups| && c in cs
    ensures (c.start, c.end) in SpansOf(n, groups, m + 1, cs) <==>
      (c.start, c.end) in SpansOf(n, groups, m, cs) || InSegment(n, groups, m, c)
  {
    SegmentIsCut(n, groups, m);
    SpansOfNext(n, groups, m, cs, Within(cs, SegmentOf(n, groups, m), groups[m].start));
    SpansWithin(cs, SegmentOf(n, groups, m), groups[m].start, c);
  }

  lemma {:induction false} SpansOfAssigned(n: Text, groups: seq<Group>, m: nat, cs: seq<Claim>, c: Claim)
    requires Prepared(n, groups) && m <= |groups| && c in cs
    ensures (c.start, c.end) in SpansOf(n, groups, m, cs) <==> Assigned(n, groups, m, c)
  {
    if m > 0 {
      SpansOfAssigned(n, groups, m - 1, cs, c);
      SpanInNext(n, groups, m - 1, cs, c);
      AssignedNext(n, groups, m - 1, c);
    }
  }

  /** The loop over the citation groups. */
  method CheckGroups(v: Vocabulary, facts: seq<Fact>, n: Text, groups: seq<Group>)
    returns (errors: seq<Problem>, associated: seq<(nat, nat)>, associatedCues: seq<(nat, nat)>)
    requires Prepared(n, groups)
    ensures errors == [] <==> AllPass(v, facts, n, groups, |groups|)
    ensures associated == SpansOf(n, groups, |groups|, Numbers(n, 0))
    ensures associatedCues == SpansOf(n, groups, |groups|, Cues(n, 0))
  {
    errors, associated, associatedCues := [], [], [];
    var previousEnd := 0;
    var previousMetric: Option<Text> := None;
    for k := 0 to |groups|
      invariant previousEnd == EndBefore(groups, k)
      invariant Visited(v, facts, n, groups, k, errors == [], previousMetric)
      invariant Gathered(n, groups, k, associated, associatedCues)
    {
      ghost var ok := errors == [];
      var problems;
      problems, associated, associatedCues, previousMetric :=
        VisitGroup(v, facts, n, groups, k, previousEnd, ok, previousMetric, associated, associatedCues);
      errors := errors + problems;
      assert errors == [] <==> ok && problems == [];
      previousEnd := groups[k].end;
    }
    VisitedAll(v, facts, n, groups, errors == [], previousMetric, associated, associatedCues);
  }

  lemma {:induction false} VisitedAll(v: Vocabulary, facts: seq<Fact>, n: Text, groups: seq<Group>, ok: bool, metric: Option<Text>,
                                      spans: seq<(nat, nat)>, cueSpans: seq<(nat, nat)>)
    requires Prepared(n, groups)
    requires Visited(v, facts, n, groups, |groups|, ok, metric) && Gathered(n, groups, |groups|, spans, cueSpans)
    ensures ok <==> AllPass(v, facts, n, groups, |groups|)
    ensures spans == SpansOf(n, groups, |groups|, Numbers(n, 0)) && cueSpans == SpansOf(n, groups, |groups|, Cues(n, 0))
  {
  }

  /** The spans of the claims in the segments of the first `k` groups have been collected. */
  ghost predicate Gathered(n: Text, groups: seq<Group>, k: nat, spans: seq<(nat, nat)>, cueSpans: seq<(nat, nat)>)
    requires Prepared(n, groups) && k <= |groups|
  {
    spans == SpansOf(n, groups, k, Numbers(n, 0)) && cueSpans == SpansOf(n, groups, k, Cues(n, 0))
  }

  /** After `k` groups: whether they all passed, and the metric the next may refer back to. */
  ghost predicate Visited(v: Vocabulary, facts: seq<Fact>, n: Text, groups: seq<Group>, k: nat, ok: bool, metric: Option<Text>)
    requires Prepared(n, groups) && k <= |groups|
  {
    && (ok <==> AllPass(v, facts, n, groups, k))
    && (ok ==> metric == MetricBefore(facts, groups, k))
  }

  /** One turn of the loop. */
  method VisitGroup(v: Vocabulary, facts: seq<Fact>, n: Text, groups: seq<Group>, k: nat,
                    previousEnd: nat, ghost ok: bool, previousMetric: Option<Text>,
                    spans0: seq<(nat, nat)>, cueSpans0: seq<(nat, nat)>)
    returns (problems: seq<Problem>, spans: seq<(nat, nat)>, cueSpans: seq<(nat, nat)>, metric: Option<Text>)
    requires Prepared(n, groups) && k < |groups| && previousEnd == EndBefore(groups, k)
    requires Visited(v, facts, n, groups, k, ok, previousMetric) && Gathered(n, groups, k, spans0, cueSpans0)
    ensures Visited(v, facts, n, groups, k + 1, ok && problems == [], metric)
    ensures Gathered(n, groups, k + 1, spans, cueSpans)
  {
    var claims, cues;
    problems, claims, cues, metric := JudgeGroup(v, facts, n, groups, k, previousEnd, ok, previousMetric);
    SpansOfNext(n, groups, k, Numbers(n, 0), claims);
    SpansOfNext(n, groups, k, Cues(n, 0), cues);
    spans, cueSpans := spans0 + Spans(claims), cueSpans0 + Spans(cues);
  }

  /** The segment of a group, its claims and its problems. */
  method JudgeGroup(v: Vocabulary, facts: seq<Fact>, n: Text, groups: seq<Group>, k: nat,
                    previousEnd: nat, ghost ok: bool, previousMetric: Option<Text>)
    returns (problems: seq<Problem>, claims: seq<Claim>, cues: seq<Claim>, metric: Option<Text>)
    requires Prepared(n, groups) && k < |groups| && previousEnd == EndBefore(groups, k)
    requires Visited(v, facts, n, groups, k, ok, previousMetric)
    ensures Visited(v, facts, n, groups, k + 1, ok && problems == [], metric)
    ensures EndBefore(groups, k) <= groups[k].start <= |n|
    ensures claims == Within(Numbers(n, 0), SegmentOf(n, groups, k), groups[k].start)
    ensures cues == Within(Cues(n, 0), SegmentOf(n, groups, k), groups[k].start)
  {
    SegmentIsCut(n, groups, k);
    AllPassStep(v, facts, n, groups, k);
    var start := SegmentStart(n, groups[k].start, previousEnd);
    var cited;
    problems, claims, cues, cited := CheckGroup(v, facts, n, groups, k, groups[k], start, previousMetric);
    metric := previousMetric;
    if problems == [] {
      metric := NextMetric(cited, previousMetric);
    }
  }

  /** The claims of the text that no segment contains. */
  method CheckAssociated(n: Text, groups: seq<Group>, all: seq<Claim>, associated: seq<(nat, nat)>)
    returns (errors: seq<Problem>)
    requires Prepared(n, groups) && associated == SpansOf(n, groups, |groups|, all)
    ensures errors == [] <==> AllAssigned(n, groups, all, |all|)
  {
    errors := [];
    for i := 0 to |all|
      invariant errors == [] <==> AllAssigned(n, groups, all, i)
    {
      SpansOfAssigned(n, groups, |groups|, all, all[i]);
      if (all[i].start, all[i].end) !in associated {
        errors := errors + [Uncited(all[i])];
      }
    }
  }

  // ---------- what acceptance means ----------

  /** Number `c` of the whole text lies in the segment of group `k` and is supported by a
      fact cited there. */
  ghost predicate NumberOwned(v: Vocabulary, facts: seq<Fact>, n: Text, groups: seq<Group>, k: nat, c: Claim)
    requires Prepared(n, groups) && k < |groups|
  {
    && InSegment(n, groups, k, c)
    && NumberBacked(v, CitedFacts(facts, groups[k].ids),
                    SceneOf(v, facts, n, groups, k, MetricBefore(facts, groups, k)), c)
  }

  ghost predicate CueOwned(v: Vocabulary, facts: seq<Fact>, n: Text, groups: seq<Group>, k: nat, c: Claim)
    requires Prepared(n, groups) && k < |groups|
  {
    && InSegment(n, groups, k, c)
    && CueBacked(v, CitedFacts(facts, groups[k].ids),
                 SceneOf(v, facts, n, groups, k, MetricBefore(facts, groups, k)), c)
  }

  ghost predicate AllNumbersOwned(v: Vocabulary, facts: seq<Fact>, n: Text, groups: seq<Group>)
    requires Prepared(n, groups)
  {
    forall c :: c in Numbers(n, 0) ==> exists k :: 0 <= k < |groups| && NumberOwned(v, facts, n, groups, k, c)
  }

  ghost predicate AllCuesOwned(v: Vocabulary, facts: seq<Fact>, n: Text, groups: seq<Group>)
    requires Prepared(n, groups)
  {
    forall c :: c in Cues(n, 0) ==> exists k :: 0 <= k < |groups| && CueOwned(v, facts, n, groups, k, c)
  }

  ghost predicate AllFit(v: Vocabulary, facts: seq<Fact>, n: Text, groups: seq<Group>)
    requires Prepared(n, groups)
  {
    forall k :: 0 <= k < |groups| ==>
      GroupFits(v, facts, CitedFacts(facts, groups[k].ids),
                SceneOf(v, facts, n, groups, k, MetricBefore(facts, groups, k)))
  }

  /** Segments never overlap: a claim lies in at most one. */
  lemma {:induction false} OneSegment(n: Text, groups: seq<Group>, j: nat, k: nat, c: Claim)
    requires Prepared(n, groups) && j < |groups| && k < |groups| && c.start < c.end
    requires InSegment(n, groups, j, c) && InSegment(n, groups, k, c)
    ensures j == k
  {
    if j < k {
      SegmentsApart(n, groups, j, k);
    } else if k < j {
      SegmentsApart(n, groups, k, j);
    }
  }

  lemma {:induction false} SegmentsApart(n: Text, groups: seq<Group>, j: nat, k: nat)
    requires Prepared(n, groups) && j < k < |groups|
    ensures groups[j].start <= groups[k].start
    ensures EndBefore(groups, k) <= groups[k].start <= |n|
    ensures groups[j].start < SegmentOf(n, groups, k)
  {
    SegmentIsCut(n, groups, k);
    SegmentIsCut(n, groups, k - 1);
    if j < k - 1 {
      SegmentsApart(n, groups, j, k - 1);
    }
  }

  lemma {:induction false} StartFromMember(cs: seq<Claim>, a: nat, c: Claim)
    requires StartFrom(cs, a) && c in cs
    ensures c.start < c.end
  {
    if c != cs[0] {
      StartFromMember(cs[1..], a, c);
    }
  }

  lemma {:induction false} ClaimNonempty(n: Text, c: Claim)
    requires c in Numbers(n, 0) || c in Cues(n, 0)
    ensures c.start < c.end
  {
    NumbersFrom(n, 0);
    CuesFrom(n, 0);
    if c in Numbers(n, 0) {
      StartFromMember(Numbers(n, 0), 0, c);
    } else {
      StartFromMember(Cues(n, 0), 0, c);
    }
  }

  lemma {:induction false} KnownCited(facts: seq<Fact>, ids: seq<Text>)
    requires ids != [] && FindFact(facts, ids[0]).Some?
    ensures CitedFacts(facts, ids) != []
  {
  }

  /** With every reference known, every group cites at least one fact. */
  lemma {:induction false} GroupsCite(facts: seq<Fact>, text: Text, k: nat)
    requires Known(facts, Tokens(text, 0)) && k < |GroupsIn(text)|
    ensures CitedFacts(facts, GroupsIn(text)[k].ids) != []
  {
    var toks, groups := Tokens(text, 0), GroupsIn(text);
    GroupAt(text, k);
    TokensOrdered(text, 0);
    GroupsOfOrdered(toks, text);
    assert Cited(toks, groups[k].ids[0]);
    var i :| 0 <= i < |toks| && toks[i].id == groups[k].ids[0];
    KnownCited(facts, groups[k].ids);
  }

  lemma {:induction false} SceneMembers(v: Vocabulary, facts: seq<Fact>, n: Text, groups: seq<Group>, k: nat,
                                        previous: Option<Text>, c: Claim)
    requires Prepared(n, groups) && k < |groups|
    ensures c in SceneOf(v, facts, n, groups, k, previous).claims <==> c in Numbers(n, 0) && InSegment(n, groups, k, c)
    ensures c in CuesOf(n, groups, k) <==> c in Cues(n, 0) && InSegment(n, groups, k, c)
  {
    SegmentIsCut(n, groups, k);
    WithinMembers(Numbers(n, 0), SegmentOf(n, groups, k), groups[k].start, c);
    WithinMembers(Cues(n, 0), SegmentOf(n, groups, k), groups[k].start, c);
  }

  lemma {:induction false} PassOwns(v: Vocabulary, facts: seq<Fact>, n: Text, groups: seq<Group>, k: nat, c: Claim)
    requires Prepared(n, groups) && k < |groups| && InSegment(n, groups, k, c)
    requires CitedFacts(facts, groups[k].ids) != []
    requires PassesAt(v, facts, n, groups, k)
    ensures c in Numbers(n, 0) ==> NumberOwned(v, facts, n, groups, k, c)
    ensures c in Cues(n, 0) ==> CueOwned(v, facts, n, groups, k, c)
  {
    SceneMembers(v, facts, n, groups, k, MetricBefore(facts, groups, k), c);
  }

  lemma {:induction false} NumbersBack(v: Vocabulary, facts: seq<Fact>, n: Text, groups: seq<Group>, k: nat, c: Claim)
    requires Prepared(n, groups) && k < |groups| && AllNumbersOwned(v, facts, n, groups)
    requires c in SceneOf(v, facts, n, groups, k, MetricBefore(facts, groups, k)).claims
    ensures NumberOwned(v, facts, n, groups, k, c)
  {
    SceneMembers(v, facts, n, groups, k, MetricBefore(facts, groups, k), c);
    ClaimNonempty(n, c);
    var j :| 0 <= j < |groups| && NumberOwned(v, facts, n, groups, j, c);
    OneSegment(n, groups, j, k, c);
  }

  lemma {:induction false} CuesBack(v: Vocabulary, facts: seq<Fact>, n: Text, groups: seq<Group>, k: nat, c: Claim)
    requires Prepared(n, groups) && k < |groups| && AllCuesOwned(v, facts, n, groups)
    requires c in CuesOf(n, groups, k)
    ensures CueOwned(v, facts, n, groups, k, c)
  {
    SceneMembers(v, facts, n, groups, k, MetricBefore(facts, groups, k), c);
    ClaimNonempty(n, c);
    var j :| 0 <= j < |groups| && CueOwned(v, facts, n, groups, j, c);
    OneSegment(n, groups, j, k, c);
  }

  /** Contract soundness and completeness. A text is accepted exactly if every reference
      is known, every numeral can be checked, every group fits its segment, and every
      number and every cue word of the whole text lies in the segment of a citation group
      that cites a fact supporting it. */
  lemma {:induction false} AcceptsExactly(v: Vocabulary, facts: seq<Fact>, text: Text, keep: Keep, cn: Worth)
    requires Utf8(text)
    ensures Prepared(Readable(text, keep, cn), GroupsIn(text))
    ensures var n, groups := Readable(text, keep, cn), GroupsIn(text);
      Accepts(v, facts, text, keep, cn) <==>
        && Known(facts, Tokens(text, 0))
        && AllWorth(MaskOf(text, Tokens(text, 0)), keep, cn)
        && AllFit(v, facts, n, groups)
        && AllNumbersOwned(v, facts, n, groups)
        && AllCuesOwned(v, facts, n, groups)
  {
    ReadablePrepared(text, keep, cn);
    if Known(facts, Tokens(text, 0)) {
      forall k | 0 <= k < |GroupsIn(text)|
        ensures CitedFacts(facts, GroupsIn(text)[k].ids) != []
      {
        GroupsCite(facts, text, k);
      }
      PassesExactly(v, facts, Readable(text, keep, cn), GroupsIn(text));
    }
  }

  lemma {:induction false} PassesExactly(v: Vocabulary, facts: seq<Fact>, n: Text, groups: seq<Group>)
    requires Prepared(n, groups)
    requires forall k :: 0 <= k < |groups| ==> CitedFacts(facts, groups[k].ids) != []
    ensures AllPass(v, facts, n, groups, |groups|)
            && AllAssigned(n, groups, Numbers(n, 0), |Numbers(n, 0)|)
            && AllAssigned(n, groups, Cues(n, 0), |Cues(n, 0)|)
      <==> AllFit(v, facts, n, groups) && AllNumbersOwned(v, facts, n, groups) && AllCuesOwned(v, facts, n, groups)
  {
    var numbers, cues := Numbers(n, 0), Cues(n, 0);
    if AllPass(v, facts, n, groups, |groups|) && AllAssigned(n, groups, numbers, |numbers|)
       && AllAssigned(n, groups, cues, |cues|) {
      PassingOwned(v, facts, n, groups);
    }
    if AllFit(v, facts, n, groups) && AllNumbersOwned(v, facts, n, groups) && AllCuesOwned(v, facts, n, groups) {
      OwnedPassing(v, facts, n, groups);
    }
  }

  lemma {:induction false} PassingOwned(v: Vocabulary, facts: seq<Fact>, n: Text, groups: seq<Group>)
    requires Prepared(n, groups) && AllPass(v, facts, n, groups, |groups|)
    requires forall k :: 0 <= k < |groups| ==> CitedFacts(facts, groups[k].ids) != []
    requires AllAssigned(n, groups, Numbers(n, 0), |Numbers(n, 0)|)
    requires AllAssigned(n, groups, Cues(n, 0), |Cues(n, 0)|)
    ensures AllFit(v, facts, n, groups) && AllNumbersOwned(v, facts, n, groups) && AllCuesOwned(v, facts, n, groups)
  {
    forall c | c in Numbers(n, 0)
      ensures exists k :: 0 <= k < |groups| && NumberOwned(v, facts, n, groups, k, c)
    {
      var k := AssignedGroup(n, groups, Numbers(n, 0), c);
      PassOwns(v, facts, n, groups, k, c);
    }
    forall c | c in Cues(n, 0)
      ensures exists k :: 0 <= k < |groups| && CueOwned(v, facts, n, groups, k, c)
    {
      var k := AssignedGroup(n, groups, Cues(n, 0), c);
      PassOwns(v, facts, n, groups, k, c);
    }
    forall k | 0 <= k < |groups|
      ensures GroupFits(v, facts, CitedFacts(facts, groups[k].ids),
                        SceneOf(v, facts, n, groups, k, MetricBefore(facts, groups, k)))
    {
      assert PassesAt(v, facts, n, groups, k);
    }
  }

  lemma {:induction false} AssignedGroup(n: Text, groups: seq<Group>, cs: seq<Claim>, c: Claim) returns (k: nat)
    requires Prepared(n, groups) && AllAssigned(n, groups, cs, |cs|) && c in cs
    ensures k < |groups| && InSegment(n, groups, k, c)
  {
    var i :| 0 <= i < |cs| && cs[i] == c;
    AllAssignedAt(n, groups, cs, |cs|, i);
    k :| 0 <= k < |groups| && InSegment(n, groups, k, c);
  }

  lemma {:induction false} OwnedPassing(v: Vocabulary, facts: seq<Fact>, n: Text, groups: seq<Group>)
    requires Prepared(n, groups)
    requires AllFit(v, facts, n, groups) && AllNumbersOwned(v, facts, n, groups) && AllCuesOwned(v, facts, n, groups)
    ensures AllPass(v, facts, n, groups, |groups|)
    ensures AllAssigned(n, groups, Numbers(n, 0), |Numbers(n, 0)|)
    ensures AllAssigned(n, groups, Cues(n, 0), |Cues(n, 0)|)
  {
    forall k | 0 <= k < |groups|
      ensures PassesAt(v, facts, n, groups, k)
    {
      OwnedPasses(v, facts, n, groups, k);
    }
    OwnedAssigned(v, facts, n, groups);
    AllAssignedBuild(n, groups, Numbers(n, 0), |Numbers(n, 0)|);
    AllAssignedBuild(n, groups, Cues(n, 0), |Cues(n, 0)|);
  }

  lemma {:induction false} OwnedPasses(v: Vocabulary, facts: seq<Fact>, n: Text, groups: seq<Group>, k: nat)
    requires Prepared(n, groups) && k < |groups|
    requires AllFit(v, facts, n, groups) && AllNumbersOwned(v, facts, n, groups) && AllCuesOwned(v, facts, n, groups)
    ensures PassesAt(v, facts, n, groups, k)
  {
    var cited, scene := CitedFacts(facts, groups[k].ids), SceneOf(v, facts, n, groups, k, MetricBefore(facts, groups, k));
    forall c | c in scene.claims
      ensures NumberBacked(v, cited, scene, c)
    {
      NumbersBack(v, facts, n, groups, k, c);
    }
    forall c | c in CuesOf(n, groups, k)
      ensures CueBacked(v, cited, scene, c)
    {
      CuesBack(v, facts, n, groups, k, c);
    }
    assert GroupFits(v, facts, cited, scene);
  }

  lemma {:induction false} OwnedAssigned(v: Vocabulary, facts: seq<Fact>, n: Text, groups: seq<Group>)
    requires Prepared(n, groups) && AllNumbersOwned(v, facts, n, groups) && AllCuesOwned(v, facts, n, groups)
    ensures forall c :: c in Numbers(n, 0) ==> Assigned(n, groups, |groups|, c)
    ensures forall c :: c in Cues(n, 0) ==> Assigned(n, groups, |groups|, c)
  {
    forall c | c in Numbers(n, 0)
      ensures Assigned(n, groups, |groups|, c)
    {
      var k :| 0 <= k < |groups| && NumberOwned(v, facts, n, groups, k, c);
      assert InSegment(n, groups, k, c);
    }
    forall c | c in Cues(n, 0)
      ensures Assigned(n, groups, |groups|, c)
    {
      var k :| 0 <= k < |groups| && CueOwned(v, facts, n, groups, k, c);
      assert InSegment(n, groups, k, c);
    }
  }
}
