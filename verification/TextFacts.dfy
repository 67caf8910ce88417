/** Facts taken from running text: one per number, one per cue word
    (crates/agent/src/answer_contract.rs:185-229). Labels (`label_before`) are a parameter. */
module TextFacts {
  import opened Text
  import opened Claims
  import opened Clauses
  import opened Facts
  import opened Ledger
  import opened Stripping

  const MAX_CONTEXT: nat := 180

  /** The heading in front of a byte of a text, if there is one. */
  type Labeller = (Text, nat) -> Option<Text>

  /** A text to be taken apart. */
  datatype Passage = Passage(namespace: Text, source: Text, text: Text)

  /** The facts so far; slicing inside a character ends the call with a panic. */
  datatype Pushed = Done(facts: seq<Fact>) | Panicked(facts: seq<Fact>)

  function MetricOf(p: Passage, i: nat, lab: Labeller): Text {
    match lab(p.text, i)
    case None => p.source
    case Some(l) => l
  }

  function ContextOf(t: Text, a: nat, b: nat): Text {
    Clip(Trim(Between(t, a, b)), MAX_CONTEXT)
  }

  predicate InText(cs: seq<Claim>, n: nat) {
    cs == [] || (cs[0].start <= cs[0].end <= n && InText(cs[1..], n))
  }

  // ---------- numbers ----------

  function NumberDraft(p: Passage, c: Claim, lab: Labeller): Draft
    requires c.what.Number? && c.start <= c.end <= |p.text|
  {
    var metric := MetricOf(p, c.start, lab);
    Draft(p.namespace, p.source, [metric], metric,
          ContextOf(p.text, ClauseStart(p.text, c.start), ClauseEnd(p.text, c.end)), [EvidenceOf(c)])
  }

  predicate AllNumbers(cs: seq<Claim>) {
    cs == [] || (cs[0].what.Number? && AllNumbers(cs[1..]))
  }

  function NumbersPushed(facts: seq<Fact>, p: Passage, cs: seq<Claim>, lab: Labeller): seq<Fact>
    requires AllNumbers(cs) && InText(cs, |p.text|)
    decreases |cs|
  {
    if cs == [] || |facts| >= MAX_FACTS then facts
    else NumbersPushed(NumberPushed(facts, p, cs[0], lab), p, cs[1..], lab)
  }

  lemma {:induction false} NumbersFit(t: Text, i: nat)
    requires i <= |t|
    ensures AllNumbers(Numbers(t, i)) && InText(Numbers(t, i), |t|)
    decreases |t| - i
  {
    if i < |t| {
      if TokenStart(t, i) {
        var d := DigitsStart(t, i);
        var e := NumberEnd(t, d, false);
        NumbersFit(t, e);
        if ClaimAt(t, i, d, e).Some? {
          assert Numbers(t, i)[1..] == Numbers(t, e);
        }
      } else {
        NumbersFit(t, i + 1);
      }
    }
  }

  // ---------- cue words ----------

  function CueDraft(p: Passage, clause: Clause, at: nat, to: nat, lab: Labeller): Draft
    requires at <= |p.text| && to <= |p.text|
  {
    var metric := MetricOf(p, at, lab);
    Draft(p.namespace, p.source, [metric], metric,
          ContextOf(p.text, PauseBefore(p.text, at, clause.start), PauseAfter(p.text, to, clause.end)), [])
  }

  /** The text can be sliced at both ends of the cue word, its position taken to be that in
      the trimmed clause plus the start of the untrimmed one. */
  predicate Sliceable(t: Text, clause: Clause, c: Claim) {
    Boundary(t, clause.start + c.start) && Boundary(t, clause.start + c.end)
  }

  function CuesPushed(facts: seq<Fact>, p: Passage, clause: Clause, cs: seq<Claim>, lab: Labeller): Pushed
    decreases |cs|
  {
    if cs == [] || |facts| >= MAX_FACTS then Done(facts)
    else if !Sliceable(p.text, clause, cs[0]) then Panicked(facts)
    else CuesPushed(CuePushed(facts, p, clause, cs[0], lab), p, clause, cs[1..], lab)
  }

  function CuesIn(t: Text, clause: Clause): seq<Claim> {
    Cues(ContextOf(t, clause.start, clause.end), 0)
  }

  function ClausesPushed(facts: seq<Fact>, p: Passage, clauses: seq<Clause>, lab: Labeller): Pushed
    decreases |clauses|
  {
    if clauses == [] || |facts| >= MAX_FACTS then Done(facts)
    else
      var now := CuesPushed(facts, p, clauses[0], CuesIn(p.text, clauses[0]), lab);
      if now.Panicked? then now else ClausesPushed(now.facts, p, clauses[1..], lab)
  }

  /** `push_text`. */
  function TextPushed(facts: seq<Fact>, p: Passage, lab: Labeller): Pushed {
    NumbersFit(p.text, 0);
    ClausesPushed(NumbersPushed(facts, p, Numbers(p.text, 0), lab), p, ClausesFrom(p.text, 0, 0), lab)
  }

  // ---------- when it panics ----------

  /** Bytes of white space that trimming takes off the front. */
  function Indent(t: Text): (w: nat)
    ensures w <= |t|
  {
    TrimStartSuffix(t);
    |t| - |TrimStart(t)|
  }

  predicate Ends(t: Text, s: Text) {
    |s| <= |t| && t[|t| - |s|..] == s
  }

  lemma {:induction false} EndsChain(t: Text, s: Text, r: Text)
    requires t != [] && Ends(t[1..], s) && Ends(s, r)
    ensures Ends(t, r)
  {
    forall k | 0 <= k < |r|
      ensures t[|t| - |r|..][k] == r[k]
    {
      assert s[|s| - |r|..][k] == s[|s| - |r| + k];
      assert t[1..][|t| - 1 - |s|..][|s| - |r| + k] == t[|t| - |r| + k];
    }
  }

  lemma {:induction false} EndsItself(t: Text)
    ensures Ends(t, t)
  {
  }

  lemma {:induction false} DropContsSuffix(t: Text)
    ensures Ends(t, DropConts(t))
  {
    EndsItself(t);
    if t != [] && t[0].Cont? {
      DropContsSuffix(t[1..]);
      EndsItself(DropConts(t[1..]));
      EndsChain(t, DropConts(t[1..]), DropConts(t[1..]));
    }
  }

  lemma {:induction false} TrimStartSuffix(t: Text)
    ensures Ends(t, TrimStart(t))
    decreases |t|
  {
    EndsItself(t);
    if t != [] && t[0].Lead? && IsSpace(t[0].ch) {
      DropContsSuffix(t[1..]);
      TrimStartSuffix(DropConts(t[1..]));
      EndsChain(t, DropConts(t[1..]), TrimStart(DropConts(t[1..])));
    }
  }

  lemma {:induction false} TrimEndPrefix(t: Text)
    ensures TrimEnd(t) <= t
    decreases |t|
  {
    var k := LastStart(t, |t|);
    if k < |t| && t[k].Lead? && IsSpace(t[k].ch) {
      TrimEndPrefix(t[..k]);
    }
  }

  lemma {:induction false} TrimmedAt(s: Text, i: nat)
    requires i < |Trim(s)|
    ensures Indent(s) + i < |s| && Trim(s)[i] == s[Indent(s) + i]
  {
    TrimStartSuffix(s);
    TrimEndPrefix(TrimStart(s));
    assert s[|s| - |TrimStart(s)|..][i] == s[Indent(s) + i];
  }

  lemma {:induction false} ClippedAt(x: Text, n: nat, i: nat)
    requires i < |Clip(x, n)| && Clip(x, n)[i].Lead? && Clip(x, n)[i].ch != '…'
    ensures i < |x| && Clip(x, n)[i] == x[i]
  {
  }

  /** A character of the context stands in the text, past the clause's indent. */
  lemma {:induction false} ContextAt(t: Text, clause: Clause, i: nat)
    requires clause.start <= clause.end <= |t|
    requires var x := ContextOf(t, clause.start, clause.end); i < |x| && x[i].Lead? && x[i].ch != '…'
    ensures var at := clause.start + Indent(OfText(t, clause)) + i;
      at < clause.end && t[at] == ContextOf(t, clause.start, clause.end)[i]
  {
    var s := OfText(t, clause);
    ClippedAt(Trim(s), MAX_CONTEXT, i);
    TrimmedAt(s, i);
  }

  /** What two characters three bytes apart read in a clause's context, they read in the
      text, past the indent. */
  lemma {:induction false} PairStands(t: Text, clause: Clause, x: Text, i: nat)
    requires clause.start <= clause.end <= |t| && x == ContextOf(t, clause.start, clause.end)
    requires i + 3 < |x| && x[i].Lead? && x[i].ch != '…' && x[i + 3].Lead? && x[i + 3].ch != '…'
    ensures var at := clause.start + Indent(OfText(t, clause)) + i;
      at + 3 < |t| && t[at] == x[i] && t[at + 3] == x[i + 3]
  {
    ContextAt(t, clause, i);
    ContextAt(t, clause, i + 3);
  }

  /** A cue word of the context is one of the text, past the indent. */
  lemma {:induction false} CueStands(t: Text, clause: Clause, x: Text, i: nat, at: nat)
    requires clause.start <= clause.end <= |t| && x == ContextOf(t, clause.start, clause.end)
    requires i < |x| && CueAt(x, i).Some? && at == clause.start + Indent(OfText(t, clause)) + i
    ensures at + 3 < |t| && t[at].Lead? && t[at + 3].Lead? && Width(t[at + 3].ch) == 3
    ensures CueAt(t, at) == CueAt(x, i)
  {
    CueWidth(x, i);
    PairStands(t, clause, x, i);
    CueSame(t, x, at, i);
  }

  lemma {:induction false} CueSame(t: Text, x: Text, at: nat, i: nat)
    requires i + 3 < |x| && at + 3 < |t| && x[i] == t[at] && x[i + 3] == t[at + 3]
    ensures CueAt(t, at) == CueAt(x, i)
  {
  }

  lemma {:induction false} CueWidth(t: Text, i: nat)
    requires i < |t| && CueAt(t, i).Some?
    ensures t[i].Lead? && IsLead(t, i + 3) && Width(t[i + 3].ch) == 3 && t[i].ch != '…' && t[i + 3].ch != '…'
  {
  }

  lemma {:induction false} CuesMeaning(t: Text, i: nat, c: Claim)
    requires i <= |t| && c in Cues(t, i)
    ensures c.start < |t| && CueAt(t, c.start).Some? && c.end == c.start + 6
    decreases |t| - i
  {
    if i < |t| {
      PrependMember(CueAt(t, i), i, Cues(t, i + 1), c);
      if c.start != i || c.end != i + 6 || CueAt(t, i).None? {
        CuesMeaning(t, i + 1, c);
      }
    }
  }

  lemma {:induction false} PrependMember(what: Option<What>, i: nat, rest: seq<Claim>, c: Claim)
    requires c in Prepend(what, i, i + 6, rest)
    ensures (what.Some? && c == Claim(what.value, i, i + 6)) || c in rest
  {
  }

  /** Where a cue word of a clause's context stands in the text. */
  function Stand(t: Text, clause: Clause, c: Claim): nat {
    clause.start + Indent(OfText(t, clause)) + c.start
  }

  /** A cue word can be sliced out exactly if the bytes that lie as far before its two ends
      as the clause is indented are character boundaries. */
  lemma {:induction false} SliceableExactly(t: Text, clause: Clause, c: Claim)
    requires clause.start <= clause.end <= |t| && c in CuesIn(t, clause)
    ensures Stand(t, clause, c) < |t| && CueAt(t, Stand(t, clause, c)).Some?
    ensures Sliceable(t, clause, c) <==>
      var w := Indent(OfText(t, clause));
      Boundary(t, Stand(t, clause, c) - w) && Boundary(t, Stand(t, clause, c) + 6 - w)
  {
    CueOfClause(t, clause, c);
    SlicedBefore(t, clause, c, Indent(OfText(t, clause)), Stand(t, clause, c));
  }

  lemma {:induction false} CueOfClause(t: Text, clause: Clause, c: Claim)
    requires clause.start <= clause.end <= |t| && c in CuesIn(t, clause)
    ensures c.end == c.start + 6 && Stand(t, clause, c) < |t| && CueAt(t, Stand(t, clause, c)).Some?
  {
    CuesMeaning(ContextOf(t, clause.start, clause.end), 0, c);
    CueStands(t, clause, ContextOf(t, clause.start, clause.end), c.start, Stand(t, clause, c));
  }

  lemma {:induction false} SlicedBefore(t: Text, clause: Clause, c: Claim, w: nat, at: nat)
    requires c.end == c.start + 6 && at == clause.start + w + c.start
    ensures Sliceable(t, clause, c) <==> Boundary(t, at - w) && Boundary(t, at + 6 - w)
  {
    assert at - w == clause.start + c.start && at + 6 - w == clause.start + c.end;
  }

  /** Without an indent it always can. */
  lemma {:induction false} UnindentedIsSafe(t: Text, clause: Clause, c: Claim)
    requires Utf8(t) && clause.start <= clause.end <= |t| && c in CuesIn(t, clause)
    requires Indent(OfText(t, clause)) == 0
    ensures Sliceable(t, clause, c)
  {
    CuesMeaning(ContextOf(t, clause.start, clause.end), 0, c);
    CueStands(t, clause, ContextOf(t, clause.start, clause.end), c.start, Stand(t, clause, c));
    NextBoundary(t, clause.start + c.start + 3);
  }

  /** With an indent of one or two bytes it never can: the end taken for the cue word's lies
      inside its last character. */
  lemma {:induction false} IndentedPanics(t: Text, clause: Clause, c: Claim)
    requires Utf8(t) && clause.start <= clause.end <= |t| && c in CuesIn(t, clause)
    requires 1 <= Indent(OfText(t, clause)) <= 2
    ensures !Sliceable(t, clause, c)
  {
    CuesMeaning(ContextOf(t, clause.start, clause.end), 0, c);
    CueStands(t, clause, ContextOf(t, clause.start, clause.end), c.start, Stand(t, clause, c));
    var last := clause.start + Indent(OfText(t, clause)) + c.start + 3;
    assert Whole(t, last);
    assert t[last + 3 - Indent(OfText(t, clause))].Cont?;
  }

  ghost predicate Unindented(t: Text, clauses: seq<Clause>) {
    forall k :: 0 <= k < |clauses| ==> Indent(OfText(t, clauses[k])) == 0
  }

  // ---------- the whole call ----------

  /** A cue word and the clause it was found in. */
  datatype Spot = Spot(clause: Clause, claim: Claim)

  function SpotsThen(clause: Clause, cs: seq<Claim>, rest: seq<Spot>): seq<Spot> {
    if cs == [] then rest else [Spot(clause, cs[0])] + SpotsThen(clause, cs[1..], rest)
  }

  /** The cue words of all clauses, in order, given those of each. */
  function AllSpots(of: Clause -> seq<Claim>, clauses: seq<Clause>): seq<Spot> {
    if clauses == [] then [] else SpotsThen(clauses[0], of(clauses[0]), AllSpots(of, clauses[1..]))
  }

  function CueLister(t: Text): Clause -> seq<Claim> { c => CuesIn(t, c) }

  function AllCues(t: Text, clauses: seq<Clause>): seq<Spot> { AllSpots(CueLister(t), clauses) }

  /** One of the first `room` cue words cannot be sliced out. */
  predicate AnyBad(t: Text, spots: seq<Spot>, room: nat) {
    spots != [] && room > 0
    && (!Sliceable(t, spots[0].clause, spots[0].claim) || AnyBad(t, spots[1..], room - 1))
  }

  lemma {:induction false} AnyBadMeans(t: Text, spots: seq<Spot>, room: nat)
    ensures AnyBad(t, spots, room) <==>
      exists i :: 0 <= i < Least(|spots|, room) && !Sliceable(t, spots[i].clause, spots[i].claim)
  {
    if spots != [] && room > 0 {
      AnyBadMeans(t, spots[1..], room - 1);
      assert forall i :: 0 < i < |spots| ==> spots[i] == spots[1..][i - 1];
    }
  }

  lemma {:induction false} CuesBad(facts: seq<Fact>, p: Passage, clause: Clause, cs: seq<Claim>, rest: seq<Spot>, lab: Labeller)
    ensures var now := CuesPushed(facts, p, clause, cs, lab);
      AnyBad(p.text, SpotsThen(clause, cs, rest), Room(|facts|)) <==>
        now.Panicked? || AnyBad(p.text, rest, Room(|now.facts|))
    decreases |cs|
  {
    if cs != [] && |facts| < MAX_FACTS {
      var more := SpotsThen(clause, cs[1..], rest);
      assert ([Spot(clause, cs[0])] + more)[1..] == more;
      if Sliceable(p.text, clause, cs[0]) {
        CuesBad(CuePushed(facts, p, clause, cs[0], lab), p, clause, cs[1..], rest, lab);
      }
    }
  }

  lemma {:induction false} ClausesBad(facts: seq<Fact>, p: Passage, clauses: seq<Clause>, lab: Labeller)
    ensures ClausesPushed(facts, p, clauses, lab).Panicked? <==>
      AnyBad(p.text, AllCues(p.text, clauses), Room(|facts|))
    decreases |clauses|
  {
    if clauses != [] && |facts| < MAX_FACTS {
      var cs := CuesIn(p.text, clauses[0]);
      var now := CuesPushed(facts, p, clauses[0], cs, lab);
      assert CueLister(p.text)(clauses[0]) == cs;
      CuesBad(facts, p, clauses[0], cs, AllCues(p.text, clauses[1..]), lab);
      if now.Done? {
        ClausesBad(now.facts, p, clauses[1..], lab);
      }
    }
  }

  /** How many cue words are reached: all, as far as there is room after the numbers. */
  function ReachedOf(facts: seq<Fact>, cs: seq<Claim>, cues: seq<Spot>): nat {
    Least(|cues|, Room(|facts| + Least(|cs|, Room(|facts|))))
  }

  function CuesOfText(t: Text): seq<Spot> { AllCues(t, ClausesFrom(t, 0, 0)) }

  function Reached(facts: seq<Fact>, t: Text): nat { ReachedOf(facts, Numbers(t, 0), CuesOfText(t)) }

  lemma {:induction false} NumbersLength(facts: seq<Fact>, p: Passage, cs: seq<Claim>, lab: Labeller)
    requires AllNumbers(cs) && InText(cs, |p.text|)
    ensures |NumbersPushed(facts, p, cs, lab)| == |facts| + Least(|cs|, Room(|facts|))
    decreases |cs|
  {
    if cs != [] && |facts| < MAX_FACTS {
      NumbersLength(NumberPushed(facts, p, cs[0], lab), p, cs[1..], lab);
    }
  }

  /** One of the first `n` cue words cannot be sliced out of the text. */
  ghost predicate Unsliceable(t: Text, cues: seq<Spot>, n: nat) {
    exists i :: 0 <= i < n && i < |cues| && !Sliceable(t, cues[i].clause, cues[i].claim)
  }

  lemma {:induction false} AnyBadIs(t: Text, cues: seq<Spot>, room: nat)
    ensures AnyBad(t, cues, room) <==> Unsliceable(t, cues, Least(|cues|, room))
  {
    AnyBadMeans(t, cues, room);
  }

  lemma {:induction false} CallPanics(facts: seq<Fact>, p: Passage, cs: seq<Claim>, clauses: seq<Clause>, lab: Labeller)
    requires AllNumbers(cs) && InText(cs, |p.text|)
    ensures ClausesPushed(NumbersPushed(facts, p, cs, lab), p, clauses, lab).Panicked? <==>
      Unsliceable(p.text, AllCues(p.text, clauses), ReachedOf(facts, cs, AllCues(p.text, clauses)))
  {
    var now := NumbersPushed(facts, p, cs, lab);
    NumbersLength(facts, p, cs, lab);
    ClausesBad(now, p, clauses, lab);
    AnyBadIs(p.text, AllCues(p.text, clauses), Room(|now|));
  }

  /** Exactly when a call panics: a cue word that is reached cannot be sliced out. */
  lemma {:induction false} TextPanicsExactly(facts: seq<Fact>, p: Passage, lab: Labeller)
    ensures TextPushed(facts, p, lab).Panicked? <==> Unsliceable(p.text, CuesOfText(p.text), Reached(facts, p.text))
  {
    NumbersFit(p.text, 0);
    CallPanics(facts, p, Numbers(p.text, 0), ClausesFrom(p.text, 0, 0), lab);
  }

  /** A cue word of the list belongs to a clause. */
  lemma {:induction false} SpotOf(of: Clause -> seq<Claim>, clauses: seq<Clause>, i: nat) returns (k: nat)
    requires i < |AllSpots(of, clauses)|
    ensures k < |clauses| && clauses[k] == AllSpots(of, clauses)[i].clause
    ensures AllSpots(of, clauses)[i].claim in of(clauses[k])
  {
    var cs, rest := of(clauses[0]), AllSpots(of, clauses[1..]);
    SpotsAt(clauses[0], cs, rest, i);
    if i < |cs| {
      k := 0;
    } else {
      var m := SpotOf(of, clauses[1..], i - |cs|);
      k := m + 1;
      assert clauses[k] == clauses[1..][m];
    }
  }

  lemma {:induction false} OrderedAt(t: Text, clauses: seq<Clause>, lo: nat, k: nat)
    requires Ordered(t, clauses, lo) && k < |clauses|
    ensures clauses[k].start <= clauses[k].end <= |t|
    decreases |clauses|
  {
    if k > 0 {
      OrderedAt(t, clauses[1..], clauses[0].end, k - 1);
    }
  }

  lemma {:induction false} SpotsAt(clause: Clause, cs: seq<Claim>, rest: seq<Spot>, i: nat)
    ensures |SpotsThen(clause, cs, rest)| == |cs| + |rest|
    ensures i < |cs| + |rest| ==>
      SpotsThen(clause, cs, rest)[i] == if i < |cs| then Spot(clause, cs[i]) else rest[i - |cs|]
  {
    if cs != [] {
      SpotsAt(clause, cs[1..], rest, if i == 0 then 0 else i - 1);
    }
  }

  lemma {:induction false} SpotFits(t: Text, i: nat) returns (k: nat)
    requires Utf8(t) && i < |CuesOfText(t)|
    ensures k < |ClausesFrom(t, 0, 0)|
    ensures var s := CuesOfText(t)[i];
      && s.clause == ClausesFrom(t, 0, 0)[k] && s.clause.start <= s.clause.end <= |t|
      && s.claim in CuesIn(t, s.clause)
  {
    ClausesOrdered(t, 0, 0);
    k := SpotOf(CueLister(t), ClausesFrom(t, 0, 0), i);
    OrderedAt(t, ClausesFrom(t, 0, 0), 0, k);
  }

  /** A text none of whose clauses starts with white space never makes `push_text` panic. */
  lemma {:induction false} UnindentedTextIsSafe(facts: seq<Fact>, p: Passage, lab: Labeller)
    requires Utf8(p.text) && Unindented(p.text, ClausesFrom(p.text, 0, 0))
    ensures TextPushed(facts, p, lab).Done?
  {
    var cues := CuesOfText(p.text);
    TextPanicsExactly(facts, p, lab);
    if i: nat :| i < Reached(facts, p.text) && i < |cues| && !Sliceable(p.text, cues[i].clause, cues[i].claim) {
      var k := SpotFits(p.text, i);
      UnindentedIsSafe(p.text, cues[i].clause, cues[i].claim);
    }
  }

  /** A call panics when it reaches any cue word of a clause indented by one or two bytes. */
  lemma {:induction false} IndentedTextPanics(facts: seq<Fact>, p: Passage, i: nat, lab: Labeller)
    requires Utf8(p.text) && i < Reached(facts, p.text)
    requires 1 <= Indent(OfText(p.text, CuesOfText(p.text)[i].clause)) <= 2
    ensures TextPushed(facts, p, lab).Panicked?
  {
    var s := CuesOfText(p.text)[i];
    var k := SpotFits(p.text, i);
    IndentedPanics(p.text, s.clause, s.claim);
    TextPanicsExactly(facts, p, lab);
  }

  // ---------- what the facts hold ----------

  function NumberPushed(facts: seq<Fact>, p: Passage, c: Claim, lab: Labeller): (r: seq<Fact>)
    requires c.what.Number? && c.start <= c.end <= |p.text|
    ensures |r| == |facts| + 1 && r[|facts|] == Numbered(facts, NumberDraft(p, c, lab))
    ensures forall k :: 0 <= k < |facts| ==> r[k] == facts[k]
  {
    facts + [Numbered(facts, NumberDraft(p, c, lab))]
  }

  /** The facts that `NumbersPushed` adds. */
  function NumberFacts(facts: seq<Fact>, p: Passage, cs: seq<Claim>, lab: Labeller): (r: seq<Fact>)
    requires AllNumbers(cs) && InText(cs, |p.text|)
    ensures |r| == Least(|cs|, Room(|facts|))
    decreases |cs|
  {
    if cs == [] || |facts| >= MAX_FACTS then []
    else [Numbered(facts, NumberDraft(p, cs[0], lab))] + NumberFacts(NumberPushed(facts, p, cs[0], lab), p, cs[1..], lab)
  }

  lemma {:induction false} Regrouped(a: seq<Fact>, f: Fact, b: seq<Fact>)
    ensures (a + [f]) + b == a + ([f] + b)
  {
  }

  /** The fact vouches for the number `c` alone, and comes from the clause around it. */
  predicate FromNumber(f: Fact, p: Passage, c: Claim)
    requires c.what.Number? && c.start <= c.end <= |p.text|
  {
    && f.numbers == [EvidenceOf(c)]
    && f.value == ContextOf(p.text, ClauseStart(p.text, c.start), ClauseEnd(p.text, c.end))
  }

  predicate FromNumbers(fs: seq<Fact>, p: Passage, cs: seq<Claim>)
    requires AllNumbers(cs) && InText(cs, |p.text|)
    decreases |fs|
  {
    fs == [] || (cs != [] && FromNumber(fs[0], p, cs[0]) && FromNumbers(fs[1..], p, cs[1..]))
  }

  /** The facts taken from numbers are one for each, in order, while there is room. */
  lemma {:induction false} OneNumberEach(facts: seq<Fact>, p: Passage, cs: seq<Claim>, lab: Labeller)
    requires AllNumbers(cs) && InText(cs, |p.text|)
    ensures NumbersPushed(facts, p, cs, lab) == facts + NumberFacts(facts, p, cs, lab)
    ensures |NumberFacts(facts, p, cs, lab)| == Least(|cs|, Room(|facts|))
    ensures FromNumbers(NumberFacts(facts, p, cs, lab), p, cs)
    decreases |cs|
  {
    NumbersAdded(facts, p, cs, lab);
    FactsFromNumbers(facts, p, cs, lab);
  }

  lemma {:induction false} NumbersAdded(facts: seq<Fact>, p: Passage, cs: seq<Claim>, lab: Labeller)
    requires AllNumbers(cs) && InText(cs, |p.text|)
    ensures NumbersPushed(facts, p, cs, lab) == facts + NumberFacts(facts, p, cs, lab)
    decreases |cs|
  {
    if cs == [] || |facts| >= MAX_FACTS {
      assert facts + [] == facts;
    } else {
      var more := NumberPushed(facts, p, cs[0], lab);
      NumbersAdded(more, p, cs[1..], lab);
      Regrouped(facts, Numbered(facts, NumberDraft(p, cs[0], lab)), NumberFacts(more, p, cs[1..], lab));
    }
  }

  lemma {:induction false} FactsFromNumbers(facts: seq<Fact>, p: Passage, cs: seq<Claim>, lab: Labeller)
    requires AllNumbers(cs) && InText(cs, |p.text|)
    ensures FromNumbers(NumberFacts(facts, p, cs, lab), p, cs)
    decreases |cs|
  {
    if cs != [] && |facts| < MAX_FACTS {
      var more := NumberPushed(facts, p, cs[0], lab);
      FactsFromNumbers(more, p, cs[1..], lab);
      FactsCons(Numbered(facts, NumberDraft(p, cs[0], lab)), NumberFacts(more, p, cs[1..], lab), p, cs);
    }
  }

  lemma {:induction false} FactsCons(f: Fact, fs: seq<Fact>, p: Passage, cs: seq<Claim>)
    requires AllNumbers(cs) && InText(cs, |p.text|) && cs != [] && FromNumber(f, p, cs[0]) && FromNumbers(fs, p, cs[1..])
    ensures FromNumbers([f] + fs, p, cs)
  {
    assert ([f] + fs)[1..] == fs;
  }

  /** The facts stay numbered in sequence, also when the call panics. */
  lemma {:induction false} TextKeepsSequence(facts: seq<Fact>, p: Passage, lab: Labeller)
    requires Sequential(facts)
    ensures Sequential(TextPushed(facts, p, lab).facts)
  {
    NumbersFit(p.text, 0);
    NumbersKeepSequence(facts, p, Numbers(p.text, 0), lab);
    ClausesKeepSequence(NumbersPushed(facts, p, Numbers(p.text, 0), lab), p, ClausesFrom(p.text, 0, 0), lab);
  }

  lemma {:induction false} NumbersKeepSequence(facts: seq<Fact>, p: Passage, cs: seq<Claim>, lab: Labeller)
    requires Sequential(facts) && AllNumbers(cs) && InText(cs, |p.text|)
    ensures Sequential(NumbersPushed(facts, p, cs, lab))
    decreases |cs|
  {
    if cs != [] && |facts| < MAX_FACTS {
      OneMore(facts, NumberDraft(p, cs[0], lab));
      NumbersKeepSequence(NumberPushed(facts, p, cs[0], lab), p, cs[1..], lab);
    }
  }

  lemma {:induction false} CuesKeepSequence(facts: seq<Fact>, p: Passage, clause: Clause, cs: seq<Claim>, lab: Labeller)
    requires Sequential(facts)
    ensures Sequential(CuesPushed(facts, p, clause, cs, lab).facts)
    decreases |cs|
  {
    if cs != [] && |facts| < MAX_FACTS && Sliceable(p.text, clause, cs[0]) {
      CuesKeepSequence(CuePushed(facts, p, clause, cs[0], lab), p, clause, cs[1..], lab);
    }
  }

  function CuePushed(facts: seq<Fact>, p: Passage, clause: Clause, c: Claim, lab: Labeller): (r: seq<Fact>)
    requires Sliceable(p.text, clause, c)
    ensures |r| == |facts| + 1
    ensures Sequential(facts) ==> Sequential(r)
  {
    var d := CueDraft(p, clause, clause.start + c.start, clause.start + c.end, lab);
    assert Sequential(facts) ==> Sequential(facts + [Numbered(facts, d)]) by {
      if Sequential(facts) {
        OneMore(facts, d);
      }
    }
    facts + [Numbered(facts, d)]
  }

  lemma {:induction false} ClausesKeepSequence(facts: seq<Fact>, p: Passage, clauses: seq<Clause>, lab: Labeller)
    requires Sequential(facts)
    ensures Sequential(ClausesPushed(facts, p, clauses, lab).facts)
    decreases |clauses|
  {
    if clauses != [] && |facts| < MAX_FACTS {
      var cs := CuesIn(p.text, clauses[0]);
      CuesKeepSequence(facts, p, clauses[0], cs, lab);
      ClausesKeepSequence(CuesPushed(facts, p, clauses[0], cs, lab).facts, p, clauses[1..], lab);
    }
  }

  // ---------- a text that panics ----------

  /** One blank, then a cue word of two characters. */
  const INDENTED: Text := [SPACE, Lead('必'), Cont, Cont, Lead('须'), Cont, Cont]

  lemma {:induction false} IndentedText(p: Passage, lab: Labeller)
    requires p.text == INDENTED
    ensures TextPushed([], p, lab).Panicked?
  {
    var t := INDENTED;
    assert !IsStop('必') && !IsStop('须') && !IsStop(' ');
    NoNumbers(t);
    assert Between(t, 0, 7) == t;
    assert !Blank(t) by {
      assert t[1].Lead? && !IsSpace(t[1].ch);
    }
    OneClause(t);
    var x := t[1..];
    assert DropConts(x) == x;
    assert TrimStart(x) == x;
    assert TrimStart(t) == x;
    assert LastStart(x, 4) == 3 && LastStart(x, 5) == 3 && LastStart(x, 6) == 3;
    assert TrimEnd(x) == x;
    ShortClip(x);
    assert ContextOf(t, 0, 7) == x;
    assert CueAt(x, 0) == Some(Cue(Require));
    var c := CuesIn(t, Clause(0, 7))[0];
    assert c == Claim(Cue(Require), 0, 6);
    assert !Boundary(t, 6);
  }

  lemma {:induction false} ShortClip(x: Text)
    requires |x| <= MAX_CONTEXT
    ensures Clip(x, MAX_CONTEXT) == x
  {
    HeadAll(x, MAX_CONTEXT);
  }

  lemma {:induction false} HeadAll(x: Text, n: nat)
    requires |x| <= n
    ensures Head(x, n) == |x|
  {
    if x != [] {
      HeadAll(x[1..], if x[0].Lead? then n - 1 else n);
    }
  }

  lemma {:induction false} NoNumbers(t: Text)
    requires t == INDENTED
    ensures Numbers(t, 0) == []
  {
    assert forall i :: 0 <= i < 7 ==> !DigitAt(t, i) && !SignedAt(t, i);
    assert Numbers(t, 7) == [];
    assert Numbers(t, 6) == [];
    assert Numbers(t, 5) == [];
    assert Numbers(t, 4) == [];
    assert Numbers(t, 3) == [];
    assert Numbers(t, 2) == [];
    assert Numbers(t, 1) == [];
  }

  lemma {:induction false} OneClause(t: Text)
    requires t == INDENTED && !Blank(Between(t, 0, 7))
    ensures ClausesFrom(t, 0, 0) == [Clause(0, 7)]
  {
    assert ClausesFrom(t, 0, 7) == [Clause(0, 7)];
    assert ClausesFrom(t, 0, 6) == [Clause(0, 7)];
    assert ClausesFrom(t, 0, 5) == [Clause(0, 7)];
    assert ClausesFrom(t, 0, 4) == [Clause(0, 7)];
    assert ClausesFrom(t, 0, 3) == [Clause(0, 7)];
    assert ClausesFrom(t, 0, 2) == [Clause(0, 7)];
    assert ClausesFrom(t, 0, 1) == [Clause(0, 7)];
  }
}
