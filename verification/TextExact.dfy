/** The facts of a running text in full: what the fact of each number and of each cue word
    says (crates/agent/src/answer_contract.rs:187-245 and 632-667). */
module TextExact {
  import opened Text
  import opened Stripping
  import opened Claims
  import opened Clauses
  import opened Facts
  import opened Ledger
  import opened TextFacts
  import opened Backing
  import opened Grounds
  import opened LedgerExact

  // ---------- excerpts ----------

  /** `b` is just behind the first stop from byte `i` on, or the end of the text. */
  ghost predicate ClauseCloses(t: Text, i: nat, b: nat) {
    || (b == |t| && StopFree(t, i, |t|))
    || (exists q :: i <= q && StopSpan(t, q, b) && StopFree(t, i, q))
  }

  predicate PauseChar(c: char) { StopChar(c) || c in "，," }

  predicate PauseAt(t: Text, k: int) { 0 <= k < |t| && t[k].Lead? && PauseChar(t[k].ch) }

  ghost predicate PauseSpan(t: Text, q: nat, e: nat) {
    && q < e <= |t| && t[q].Lead? && PauseChar(t[q].ch) && Boundary(t, e)
    && forall k :: q < k < e ==> t[k].Cont?
  }

  ghost predicate PauseFree(t: Text, a: nat, b: nat)
    requires b <= |t|
  {
    forall k :: a <= k < b ==> !PauseAt(t, k)
  }

  /** `a` is just behind the last pause before byte `i`, or `start` if there is none. */
  ghost predicate PartOpens(t: Text, i: nat, start: nat, a: nat)
    requires i <= |t|
  {
    if PauseFree(t, 0, i) then a == start
    else exists q: nat :: q < i && PauseSpan(t, q, a) && PauseFree(t, q + 1, i)
  }

  ghost predicate PartCloses(t: Text, i: nat, end: nat, b: nat)
    requires i <= |t|
  {
    if PauseFree(t, i, |t|) then b == end
    else exists q :: i <= q && PauseSpan(t, q, b) && PauseFree(t, i, q)
  }

  /** `x` is the stretch `a..b`, trimmed, up to 180 characters. */
  predicate Excerpt(t: Text, a: nat, b: nat, x: Text) {
    Clips(Trim(Between(t, a, b)), 180, x)
  }

  lemma {:induction false} StopsAlike(c: char)
    ensures IsStop(c) <==> StopChar(c)
    ensures IsPause(c) <==> PauseChar(c)
  {
  }

  lemma {:induction false} SpanAt(t: Text, q: nat)
    requires Utf8(t) && q < |t| && t[q].Lead? && PauseChar(t[q].ch)
    ensures PauseSpan(t, q, q + Width(t[q].ch))
    ensures StopChar(t[q].ch) ==> StopSpan(t, q, q + Width(t[q].ch))
  {
    assert Whole(t, q);
  }

  lemma {:induction false} ClauseEndIs(t: Text, i: nat)
    requires Utf8(t) && i <= |t|
    ensures ClauseCloses(t, i, ClauseEnd(t, i))
    decreases |t| - i
  {
    if i < |t| {
      if t[i].Lead? {
        StopsAlike(t[i].ch);
      }
      if t[i].Lead? && IsStop(t[i].ch) {
        SpanAt(t, i);
      } else {
        ClauseEndIs(t, i + 1);
        ClosesEarlier(t, i, ClauseEnd(t, i + 1));
      }
    }
  }

  lemma {:induction false} ClosesEarlier(t: Text, i: nat, b: nat)
    requires i < |t| && !(t[i].Lead? && StopChar(t[i].ch)) && ClauseCloses(t, i + 1, b)
    ensures ClauseCloses(t, i, b)
  {
    if q :| i + 1 <= q && StopSpan(t, q, b) && StopFree(t, i + 1, q) {
      assert StopFree(t, i, q);
    }
  }

  lemma {:induction false} PauseBeforeIs(t: Text, i: nat, start: nat)
    requires Utf8(t) && i <= |t|
    ensures PartOpens(t, i, start, PauseBefore(t, i, start))
  {
    if i > 0 {
      if t[i - 1].Lead? {
        StopsAlike(t[i - 1].ch);
      }
      if t[i - 1].Lead? && IsPause(t[i - 1].ch) {
        SpanAt(t, i - 1);
        assert PauseAt(t, i - 1);
      } else {
        PauseBeforeIs(t, i - 1, start);
        OpensLater(t, i, start, PauseBefore(t, i - 1, start));
      }
    }
  }

  lemma {:induction false} OpensLater(t: Text, i: nat, start: nat, a: nat)
    requires 0 < i <= |t| && !PauseAt(t, i - 1) && PartOpens(t, i - 1, start, a)
    ensures PartOpens(t, i, start, a)
  {
    if PauseFree(t, 0, i - 1) {
      assert PauseFree(t, 0, i);
    } else {
      assert !PauseFree(t, 0, i);
      var q: nat :| q < i - 1 && PauseSpan(t, q, a) && PauseFree(t, q + 1, i - 1);
      assert PauseFree(t, q + 1, i);
    }
  }

  lemma {:induction false} PauseAfterIs(t: Text, i: nat, end: nat)
    requires Utf8(t) && i <= |t|
    ensures PartCloses(t, i, end, PauseAfter(t, i, end))
    decreases |t| - i
  {
    if i < |t| {
      if t[i].Lead? {
        StopsAlike(t[i].ch);
      }
      if t[i].Lead? && IsPause(t[i].ch) {
        SpanAt(t, i);
        assert PauseAt(t, i);
      } else {
        PauseAfterIs(t, i + 1, end);
        ClosesSooner(t, i, end, PauseAfter(t, i + 1, end));
      }
    }
  }

  lemma {:induction false} ClosesSooner(t: Text, i: nat, end: nat, b: nat)
    requires i < |t| && !PauseAt(t, i) && PartCloses(t, i + 1, end, b)
    ensures PartCloses(t, i, end, b)
  {
    if PauseFree(t, i + 1, |t|) {
      assert PauseFree(t, i, |t|);
    } else {
      assert !PauseFree(t, i, |t|);
      var q :| i + 1 <= q && PauseSpan(t, q, b) && PauseFree(t, i + 1, q);
      assert PauseFree(t, i, q);
    }
  }

  // ---------- what the facts say ----------

  /** The fact is about the label before byte `at`, or about the source without one. */
  ghost predicate Labelled(f: Fact, p: Passage, at: nat, lab: Labeller) {
    && f.namespace == p.namespace && f.source == p.source && f.subjects == [f.metric]
    && f.metric == if lab(p.text, at).Some? then lab(p.text, at).value else p.source
  }

  /** `x` quotes the clause around bytes `i..j`. */
  ghost predicate QuotesClause(t: Text, i: nat, j: nat, x: Text) {
    exists a, b :: ClauseOpens(t, 0, i, a) && ClauseCloses(t, j, b) && Excerpt(t, a, b, x)
  }

  /** `x` quotes what stands between the pauses around bytes `i..j`, or in the clause. */
  ghost predicate QuotesPart(t: Text, i: nat, j: nat, clause: Clause, x: Text)
    requires i <= |t| && j <= |t|
  {
    exists a, b :: PartOpens(t, i, clause.start, a) && PartCloses(t, j, clause.end, b) && Excerpt(t, a, b, x)
  }

  /** The fact says number `c`, and quotes the clause around it. */
  ghost predicate TellsNumber(f: Fact, p: Passage, c: Claim, lab: Labeller) {
    && c.what.Number? && Labelled(f, p, c.start, lab) && f.numbers == [Said(c)]
    && QuotesClause(p.text, c.start, c.end, f.value)
  }

  /** The fact says no number, and quotes what stands around the place where the cue word is
      taken to be. */
  ghost predicate TellsWord(f: Fact, p: Passage, s: Spot, lab: Labeller) {
    WordedAt(f, p, s.clause, s.clause.start + s.claim.start, s.clause.start + s.claim.end, lab)
  }

  ghost predicate WordedAt(f: Fact, p: Passage, clause: Clause, at: nat, to: nat, lab: Labeller) {
    && at <= |p.text| && to <= |p.text| && Labelled(f, p, at, lab) && f.numbers == []
    && QuotesPart(p.text, at, to, clause, f.value)
  }

  lemma {:induction false} ExcerptIs(t: Text, a: nat, b: nat)
    ensures Excerpt(t, a, b, ContextOf(t, a, b))
  {
    ClipIs(Trim(Between(t, a, b)), 180);
  }

  lemma {:induction false} ClauseQuoted(t: Text, i: nat, j: nat)
    requires Utf8(t) && i <= |t| && j <= |t| && Boundary(t, i)
    ensures QuotesClause(t, i, j, ContextOf(t, ClauseStart(t, i), ClauseEnd(t, j)))
  {
    StartBoundary(t);
    ClauseOpensIs(t, 0, i, ClauseStart(t, i));
    ClauseEndIs(t, j);
    ExcerptIs(t, ClauseStart(t, i), ClauseEnd(t, j));
  }

  lemma {:induction false} StartBoundary(t: Text)
    requires Utf8(t)
    ensures Boundary(t, 0)
  {
  }

  lemma {:induction false} PartQuoted(t: Text, i: nat, j: nat, clause: Clause)
    requires Utf8(t) && i <= |t| && j <= |t|
    ensures QuotesPart(t, i, j, clause, ContextOf(t, PauseBefore(t, i, clause.start), PauseAfter(t, j, clause.end)))
  {
    PauseBeforeIs(t, i, clause.start);
    PauseAfterIs(t, j, clause.end);
    ExcerptIs(t, PauseBefore(t, i, clause.start), PauseAfter(t, j, clause.end));
  }

  lemma {:induction false} NumberTold(facts: seq<Fact>, p: Passage, c: Claim, lab: Labeller)
    requires Utf8(p.text) && c.what.Number? && c.start <= c.end <= |p.text| && Boundary(p.text, c.start)
    ensures TellsNumber(Numbered(facts, NumberDraft(p, c, lab)), p, c, lab)
  {
    ClauseQuoted(p.text, c.start, c.end);
  }

  /** The label and the excerpt of a cue word, as they are computed. */
  ghost predicate CueFields(f: Fact, p: Passage, clause: Clause, at: nat, to: nat, lab: Labeller)
    requires at <= |p.text| && to <= |p.text|
  {
    && Labelled(f, p, at, lab) && f.numbers == []
    && f.value == ContextOf(p.text, PauseBefore(p.text, at, clause.start), PauseAfter(p.text, to, clause.end))
  }

  lemma {:induction false} FieldsWorded(f: Fact, p: Passage, clause: Clause, at: nat, to: nat, lab: Labeller)
    requires Utf8(p.text) && at <= |p.text| && to <= |p.text| && CueFields(f, p, clause, at, to, lab)
    ensures WordedAt(f, p, clause, at, to, lab)
  {
    PartQuoted(p.text, at, to, clause);
  }

  // ---------- the whole call ----------

  /** The new facts behind the old ones tell the first items, one by one. */
  ghost predicate ToldBy<T>(old_: seq<Fact>, new_: seq<Fact>, items: seq<T>, tells: (Fact, T) -> bool) {
    && old_ <= new_ && |new_| <= |old_| + |items|
    && forall k :: |old_| <= k < |new_| ==> tells(new_[k], items[k - |old_|])
  }

  lemma {:induction false} ToldCons<T>(old_: seq<Fact>, f: Fact, new_: seq<Fact>, items: seq<T>, tells: (Fact, T) -> bool)
    requires items != [] && tells(f, items[0]) && ToldBy(old_ + [f], new_, items[1..], tells)
    ensures ToldBy(old_, new_, items, tells)
  {
    assert old_ <= old_ + [f];
    assert new_[|old_|] == f;
    forall k | |old_| <= k < |new_|
      ensures tells(new_[k], items[k - |old_|])
    {
      if k > |old_| {
        assert items[1..][k - |old_| - 1] == items[k - |old_|];
      }
    }
  }

  ghost function NumberTeller(p: Passage, lab: Labeller): (Fact, Claim) -> bool { (f, c) => TellsNumber(f, p, c, lab) }

  ghost function WordTeller(p: Passage, lab: Labeller): (Fact, Spot) -> bool { (f, s) => TellsWord(f, p, s, lab) }

  ghost predicate NumbersTold(old_: seq<Fact>, new_: seq<Fact>, p: Passage, cs: seq<Claim>, lab: Labeller) {
    ToldBy(old_, new_, cs, NumberTeller(p, lab))
  }

  lemma {:induction false} NumbersToldAll(facts: seq<Fact>, p: Passage, cs: seq<Claim>, lab: Labeller)
    requires Utf8(p.text) && AllNumbers(cs) && InText(cs, |p.text|) && AllStart(cs, p.text)
    ensures NumbersTold(facts, NumbersPushed(facts, p, cs, lab), p, cs, lab)
    decreases |cs|
  {
    if cs != [] && |facts| < MAX_FACTS {
      var f := Numbered(facts, NumberDraft(p, cs[0], lab));
      NumberTold(facts, p, cs[0], lab);
      assert NumberPushed(facts, p, cs[0], lab) == facts + [f];
      NumbersToldAll(facts + [f], p, cs[1..], lab);
      ToldCons(facts, f, NumbersPushed(facts + [f], p, cs[1..], lab), cs, NumberTeller(p, lab));
    }
  }

  /** Numbers start between characters. */
  predicate AllStart(cs: seq<Claim>, t: Text) {
    cs == [] || (Boundary(t, cs[0].start) && AllStart(cs[1..], t))
  }

  lemma {:induction false} NumbersStart(t: Text, i: nat)
    requires i <= |t|
    ensures AllStart(Numbers(t, i), t)
    decreases |t| - i
  {
    if i < |t| {
      if TokenStart(t, i) {
        var d := DigitsStart(t, i);
        var e := NumberEnd(t, d, false);
        NumbersStart(t, e);
        if ClaimAt(t, i, d, e).Some? {
          assert Numbers(t, i)[1..] == Numbers(t, e);
        }
      } else {
        NumbersStart(t, i + 1);
      }
    }
  }

  /** The cue words of all clauses, pushed one after the other. */
  function SpotsPushed(facts: seq<Fact>, p: Passage, spots: seq<Spot>, lab: Labeller): Pushed
    decreases |spots|
  {
    if spots == [] || |facts| >= MAX_FACTS then Done(facts)
    else if !Sliceable(p.text, spots[0].clause, spots[0].claim) then Panicked(facts)
    else SpotsPushed(CuePushed(facts, p, spots[0].clause, spots[0].claim, lab), p, spots[1..], lab)
  }

  lemma {:induction false} ClauseSpots(facts: seq<Fact>, p: Passage, clause: Clause, cs: seq<Claim>, rest: seq<Spot>, lab: Labeller)
    ensures var now := CuesPushed(facts, p, clause, cs, lab);
      SpotsPushed(facts, p, SpotsThen(clause, cs, rest), lab) == if now.Panicked? then now else SpotsPushed(now.facts, p, rest, lab)
    decreases |cs|
  {
    if cs != [] && |facts| < MAX_FACTS {
      var more := SpotsThen(clause, cs[1..], rest);
      assert ([Spot(clause, cs[0])] + more)[1..] == more;
      if Sliceable(p.text, clause, cs[0]) {
        ClauseSpots(CuePushed(facts, p, clause, cs[0], lab), p, clause, cs[1..], rest, lab);
      }
    }
  }

  lemma {:induction false} AllSpotsPushed(facts: seq<Fact>, p: Passage, clauses: seq<Clause>, lab: Labeller)
    ensures ClausesPushed(facts, p, clauses, lab) == SpotsPushed(facts, p, AllCues(p.text, clauses), lab)
    decreases |clauses|
  {
    if clauses != [] {
      var cs := CuesIn(p.text, clauses[0]);
      var now := CuesPushed(facts, p, clauses[0], cs, lab);
      assert CueLister(p.text)(clauses[0]) == cs;
      ClauseSpots(facts, p, clauses[0], cs, AllCues(p.text, clauses[1..]), lab);
      if now.Done? {
        AllSpotsPushed(now.facts, p, clauses[1..], lab);
      }
    }
  }

  lemma {:induction false} PushedCue(facts: seq<Fact>, p: Passage, clause: Clause, c: Claim, lab: Labeller, at: nat, to: nat)
    returns (f: Fact)
    requires Sliceable(p.text, clause, c) && at == clause.start + c.start && to == clause.start + c.end
    ensures CuePushed(facts, p, clause, c, lab) == facts + [f]
    ensures at <= |p.text| && to <= |p.text| && CueFields(f, p, clause, at, to, lab)
  {
    var d := CueDraft(p, clause, at, to, lab);
    f := PushedDraft(facts, p, clause, c, lab, d);
  }

  lemma {:induction false} PushedDraft(facts: seq<Fact>, p: Passage, clause: Clause, c: Claim, lab: Labeller, d: Draft)
    returns (f: Fact)
    requires Sliceable(p.text, clause, c) && d == CueDraft(p, clause, clause.start + c.start, clause.start + c.end, lab)
    ensures CuePushed(facts, p, clause, c, lab) == facts + [f]
    ensures f.namespace == d.namespace && f.source == d.source && f.subjects == d.subjects && f.metric == d.metric
    ensures f.value == d.value && f.numbers == d.numbers
  {
    f := Numbered(facts, d);
  }

  /** Facts with the fields of a cue word tell it. */
  ghost predicate AllTell(p: Passage, lab: Labeller, tells: (Fact, Spot) -> bool) {
    forall f, s, at, to :: FieldsOf(f, p, s, lab, at, to) ==> tells(f, s)
  }

  /** The fact has the fields of cue word `s`, which is taken to stand at bytes `at..to`. */
  ghost predicate FieldsOf(f: Fact, p: Passage, s: Spot, lab: Labeller, at: nat, to: nat) {
    && at == s.clause.start + s.claim.start && to == s.clause.start + s.claim.end
    && at <= |p.text| && to <= |p.text| && CueFields(f, p, s.clause, at, to, lab)
  }

  lemma {:induction false} FieldsTell(f: Fact, p: Passage, s: Spot, lab: Labeller, at: nat, to: nat)
    requires Utf8(p.text) && FieldsOf(f, p, s, lab, at, to)
    ensures TellsWord(f, p, s, lab)
  {
    FieldsWorded(f, p, s.clause, at, to, lab);
  }

  lemma {:induction false} CuesAllTell(p: Passage, lab: Labeller)
    requires Utf8(p.text)
    ensures AllTell(p, lab, WordTeller(p, lab))
  {
    forall f: Fact, s: Spot, at: nat, to: nat | FieldsOf(f, p, s, lab, at, to)
      ensures WordTeller(p, lab)(f, s)
    {
      FieldsTell(f, p, s, lab, at, to);
    }
  }

  /** How pushing cue words ends: all told as far as there is room, or up to a bad one. */
  ghost predicate WordsEnd(facts: seq<Fact>, r: Pushed, t: Text, spots: seq<Spot>, tells: (Fact, Spot) -> bool) {
    && ToldBy(facts, r.facts, spots, tells)
    && (r.Done? ==> |r.facts| == |facts| + Least(|spots|, Room(|facts|)))
    && (r.Panicked? ==> BadAt(t, spots, |r.facts| - |facts|) && |r.facts| < 128)
  }

  predicate BadAt(t: Text, spots: seq<Spot>, i: int) {
    0 <= i < |spots| && !Sliceable(t, spots[i].clause, spots[i].claim)
  }

  lemma {:induction false} WordsEndCons(facts: seq<Fact>, f: Fact, r: Pushed, t: Text, spots: seq<Spot>, tells: (Fact, Spot) -> bool)
    requires spots != [] && |facts| < MAX_FACTS && tells(f, spots[0])
    requires WordsEnd(facts + [f], r, t, spots[1..], tells)
    ensures WordsEnd(facts, r, t, spots, tells)
  {
    ToldCons(facts, f, r.facts, spots, tells);
  }

  lemma {:induction false} WordsToldAll(facts: seq<Fact>, p: Passage, spots: seq<Spot>, lab: Labeller, tells: (Fact, Spot) -> bool)
    requires AllTell(p, lab, tells)
    ensures WordsEnd(facts, SpotsPushed(facts, p, spots, lab), p.text, spots, tells)
    decreases |spots|
  {
    if spots != [] && |facts| < MAX_FACTS && Sliceable(p.text, spots[0].clause, spots[0].claim) {
      var s := spots[0];
      var f := PushedCue(facts, p, s.clause, s.claim, lab, s.clause.start + s.claim.start, s.clause.start + s.claim.end);
      assert FieldsOf(f, p, s, lab, s.clause.start + s.claim.start, s.clause.start + s.claim.end);
      WordsToldAll(facts + [f], p, spots[1..], lab, tells);
      WordsEndCons(facts, f, SpotsPushed(facts + [f], p, spots[1..], lab), p.text, spots, tells);
    }
  }

  /** A text in full: behind the old facts one for each number of the text, then one for each
      cue word of its clauses, in order, as far as there is room; or up to the first cue word
      that cannot be sliced out, which ends the call. */
  lemma {:induction false} TextInFull(facts: seq<Fact>, p: Passage, lab: Labeller) returns (numbers: seq<Fact>)
    requires Utf8(p.text)
    ensures NumbersTold(facts, numbers, p, Numbers(p.text, 0), lab)
    ensures |numbers| == |facts| + Least(|Numbers(p.text, 0)|, Room(|facts|))
    ensures WordsEnd(numbers, TextPushed(facts, p, lab), p.text, CuesOfText(p.text), WordTeller(p, lab))
  {
    var cs := Numbers(p.text, 0);
    NumbersFit(p.text, 0);
    NumbersStart(p.text, 0);
    numbers := NumbersPushed(facts, p, cs, lab);
    NumbersLength(facts, p, cs, lab);
    NumbersToldAll(facts, p, cs, lab);
    AllSpotsPushed(numbers, p, ClausesFrom(p.text, 0, 0), lab);
    CuesAllTell(p, lab);
    WordsToldAll(numbers, p, CuesOfText(p.text), lab, WordTeller(p, lab));
  }
}
