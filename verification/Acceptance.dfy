/** What an accepted text shows: its claims, its digits and its numerals
    (crates/agent/src/answer_contract.rs:315-524 and 737-817). */
module Acceptance {
  import opened Text
  import opened References
  import opened Stripping
  import opened Numerals
  import opened Claims
  import opened Locality
  import opened Facts
  import opened Ledger
  import opened Contract

  // ---------- the cited fact ----------

  lemma {:induction false} FactAt(facts: seq<Fact>, f: Fact) returns (i: nat)
    requires f in facts
    ensures i < |facts| && facts[i] == f
  {
    i :| i < |facts| && facts[i] == f;
  }

  /** In a numbered contract an id finds the one fact that has it. */
  lemma {:induction false} FoundIsTheFact(facts: seq<Fact>, f: Fact)
    requires Sequential(facts) && f in facts
    ensures FindFact(facts, f.id) == Some(f)
  {
    var g := FindFact(facts, f.id);
    var i := FactAt(facts, f);
    var j := FactAt(facts, g.value);
    if i < j {
      IdsUnique(facts, i, j);
    } else if j < i {
      IdsUnique(facts, j, i);
    }
  }

  lemma {:induction false} CitedExactly(facts: seq<Fact>, ids: seq<Text>, f: Fact)
    requires Sequential(facts)
    ensures f in CitedFacts(facts, ids) <==> f in facts && f.id in ids
  {
    if ids != [] {
      CitedExactly(facts, ids[1..], f);
      if f in facts && f.id == ids[0] {
        FoundIsTheFact(facts, f);
      }
    }
  }

  /** Number `c` lies in the segment of group `k`, and a fact of the contract whose id the
      group names supports it. */
  ghost predicate NumberCited(v: Vocabulary, facts: seq<Fact>, n: Text, groups: seq<Group>, k: nat, c: Claim)
    requires Prepared(n, groups) && k < |groups|
  {
    && InSegment(n, groups, k, c)
    && exists f :: f in facts && f.id in groups[k].ids
         && SupportsNumber(v, f, SceneOf(v, facts, n, groups, k, MetricBefore(facts, groups, k)), c)
  }

  ghost predicate CueCited(v: Vocabulary, facts: seq<Fact>, n: Text, groups: seq<Group>, k: nat, c: Claim)
    requires Prepared(n, groups) && k < |groups|
  {
    && InSegment(n, groups, k, c)
    && exists f :: f in facts && f.id in groups[k].ids
         && SupportsCue(v, f, SceneOf(v, facts, n, groups, k, MetricBefore(facts, groups, k)), c)
  }

  lemma {:induction false} OwnedIsCited(v: Vocabulary, facts: seq<Fact>, n: Text, groups: seq<Group>, k: nat, c: Claim)
    requires Sequential(facts) && Prepared(n, groups) && k < |groups|
    ensures NumberOwned(v, facts, n, groups, k, c) <==> NumberCited(v, facts, n, groups, k, c)
    ensures CueOwned(v, facts, n, groups, k, c) <==> CueCited(v, facts, n, groups, k, c)
  {
    forall f
      ensures f in CitedFacts(facts, groups[k].ids) <==> f in facts && f.id in groups[k].ids
    {
      CitedExactly(facts, groups[k].ids, f);
    }
  }

  ghost predicate AllNumbersCited(v: Vocabulary, facts: seq<Fact>, n: Text, groups: seq<Group>)
    requires Prepared(n, groups)
  {
    forall c :: c in Numbers(n, 0) ==> exists k :: 0 <= k < |groups| && NumberCited(v, facts, n, groups, k, c)
  }

  ghost predicate AllCuesCited(v: Vocabulary, facts: seq<Fact>, n: Text, groups: seq<Group>)
    requires Prepared(n, groups)
  {
    forall c :: c in Cues(n, 0) ==> exists k :: 0 <= k < |groups| && CueCited(v, facts, n, groups, k, c)
  }

  lemma {:induction false} AllOwnedAreCited(v: Vocabulary, facts: seq<Fact>, n: Text, groups: seq<Group>)
    requires Sequential(facts) && Prepared(n, groups)
    ensures AllNumbersOwned(v, facts, n, groups) <==> AllNumbersCited(v, facts, n, groups)
    ensures AllCuesOwned(v, facts, n, groups) <==> AllCuesCited(v, facts, n, groups)
  {
    forall k: nat, c | k < |groups|
      ensures NumberOwned(v, facts, n, groups, k, c) <==> NumberCited(v, facts, n, groups, k, c)
      ensures CueOwned(v, facts, n, groups, k, c) <==> CueCited(v, facts, n, groups, k, c)
    {
      OwnedIsCited(v, facts, n, groups, k, c);
    }
  }

  /** Acceptance by a numbered contract: every number and every cue word of the text lies in
      the segment of a citation group that names the id of a fact supporting it. */
  lemma {:induction false} AcceptsByCitation(v: Vocabulary, facts: seq<Fact>, text: Text, keep: Keep, cn: Worth)
    requires Utf8(text) && Sequential(facts)
    ensures Prepared(Readable(text, keep, cn), GroupsIn(text))
    ensures var n, groups := Readable(text, keep, cn), GroupsIn(text);
      Accepts(v, facts, text, keep, cn) <==>
        && Known(facts, Tokens(text, 0))
        && AllWorth(MaskOf(text, Tokens(text, 0)), keep, cn)
        && AllFit(v, facts, n, groups)
        && AllNumbersCited(v, facts, n, groups)
        && AllCuesCited(v, facts, n, groups)
  {
    AcceptsExactly(v, facts, text, keep, cn);
    AllOwnedAreCited(v, facts, Readable(text, keep, cn), GroupsIn(text));
  }

  // ---------- the digits shown ----------

  /** The ASCII digits of a text, in order. */
  function DigitsOf(t: Text): seq<char> {
    if t == [] then []
    else if t[0].Lead? && IsDigit(t[0].ch) then [t[0].ch] + DigitsOf(t[1..])
    else DigitsOf(t[1..])
  }

  lemma {:induction false} DigitsAppend(s: Text, t: Text)
    ensures DigitsOf(s + t) == DigitsOf(s) + DigitsOf(t)
  {
    if s == [] {
      assert s + t == t;
    } else {
      assert (s + t)[1..] == s[1..] + t;
      DigitsAppend(s[1..], t);
    }
  }

  lemma {:induction false} DropContsDigits(t: Text)
    ensures DigitsOf(DropConts(t)) == DigitsOf(t)
  {
    if t != [] && t[0].Cont? {
      DropContsDigits(t[1..]);
    }
  }

  lemma {:induction false} VisibleDigits(t: Text)
    ensures DigitsOf(Visible(t)) == DigitsOf(t)
    decreases |t|
  {
    if t != [] {
      if t[0].Lead? && IsSpace(t[0].ch) {
        DropContsShorter(t[1..]);
        DropContsDigits(t[1..]);
        VisibleDigits(DropConts(t[1..]));
      } else {
        VisibleDigits(t[1..]);
        assert ([t[0]] + Visible(t[1..]))[1..] == Visible(t[1..]);
      }
    }
  }

  /** `at` are positions of the digits `ds` in the text, in order, from byte `lo` on. */
  ghost predicate Stand(t: Text, ds: seq<char>, at: seq<nat>, lo: nat, hi: nat)
    decreases |at|
  {
    if at == [] || ds == [] then at == [] && ds == []
    else lo <= at[0] < hi <= |t| && t[at[0]] == Lead(ds[0]) && IsDigit(ds[0]) && Stand(t, ds[1..], at[1..], at[0] + 1, hi)
  }

  lemma {:induction false} StandWider(t: Text, ds: seq<char>, at: seq<nat>, lo: nat, hi: nat, lo2: nat, hi2: nat)
    requires Stand(t, ds, at, lo, hi) && lo2 <= lo && hi <= hi2 <= |t|
    ensures Stand(t, ds, at, lo2, hi2)
    decreases |at|
  {
    if at != [] && ds != [] {
      StandWider(t, ds[1..], at[1..], at[0] + 1, hi, at[0] + 1, hi2);
    }
  }

  lemma {:induction false} StandThen(t: Text, ds: seq<char>, at: seq<nat>, lo: nat, mid: nat, es: seq<char>, bt: seq<nat>, hi: nat)
    requires Stand(t, ds, at, lo, mid) && Stand(t, es, bt, mid, hi) && lo <= mid <= hi <= |t|
    ensures Stand(t, ds + es, at + bt, lo, hi)
    decreases |at|
  {
    if at == [] {
      assert at + bt == bt && ds + es == es;
      StandWider(t, es, bt, mid, hi, lo, hi);
    } else {
      StandLow(t, ds[1..], at[1..], at[0] + 1, mid);
      StandThen(t, ds[1..], at[1..], at[0] + 1, mid, es, bt, hi);
      assert (at + bt)[1..] == at[1..] + bt && (ds + es)[1..] == ds[1..] + es;
    }
  }

  lemma {:induction false} StandLow(t: Text, ds: seq<char>, at: seq<nat>, lo: nat, mid: nat)
    requires Stand(t, ds, at, lo, mid)
    ensures at == [] || lo < mid
  {
  }

  lemma {:induction false} SliceStands(t: Text, a: nat, b: nat) returns (at: seq<nat>)
    requires a <= b <= |t|
    ensures Stand(t, DigitsOf(t[a..b]), at, a, b)
    decreases b - a
  {
    at := [];
    if a < b {
      var s := t[a..b];
      assert s[0] == t[a] && s[1..] == t[a + 1..b];
      var rest := SliceStands(t, a + 1, b);
      if s[0].Lead? && IsDigit(s[0].ch) {
        at := [a] + rest;
        assert at[1..] == rest && DigitsOf(s)[1..] == DigitsOf(s[1..]);
      } else {
        at := rest;
        StandWider(t, DigitsOf(s[1..]), rest, a + 1, b, a, b);
      }
    }
  }

  /** No position lies in a token. */
  ghost predicate AllOutside(toks: seq<Token>, at: seq<nat>) {
    forall k :: 0 <= k < |at| ==> !Inside(toks, at[k])
  }

  lemma {:induction false} StandRange(t: Text, ds: seq<char>, at: seq<nat>, lo: nat, hi: nat)
    requires Stand(t, ds, at, lo, hi)
    ensures |at| == |ds| && forall k :: 0 <= k < |at| ==> lo <= at[k] < hi <= |t| && t[at[k]] == Lead(ds[k]) && IsDigit(ds[k])
    decreases |at|
  {
    if at != [] && ds != [] {
      StandRange(t, ds[1..], at[1..], at[0] + 1, hi);
      assert forall k :: 0 < k < |at| ==> at[k] == at[1..][k - 1] && ds[k] == ds[1..][k - 1];
    }
  }

  lemma {:induction false} BeforeTokens(toks: seq<Token>, lo: nat, n: nat, i: nat)
    requires Spread(toks, lo, n) && i < lo
    ensures !Inside(toks, i)
  {
    SpreadBounds(toks, lo, n);
  }

  lemma {:induction false} PastFirst(toks: seq<Token>, i: nat)
    requires toks != [] && i >= toks[0].end && !Inside(toks[1..], i)
    ensures !Inside(toks, i)
  {
    assert forall k :: 0 < k < |toks| ==> toks[k] == toks[1..][k - 1];
  }

  lemma {:induction false} BeforeFirst(toks: seq<Token>, lo: nat, n: nat, i: nat)
    requires toks != [] && Spread(toks, lo, n) && i < toks[0].start
    ensures !Inside(toks, i)
  {
    BeforeTokens(toks, toks[0].start, n, i);
  }

  /** The digits left when tokens are removed stand outside the tokens. */
  lemma {:induction false} RemovedStands(t: Text, toks: seq<Token>, cursor: nat) returns (at: seq<nat>)
    requires cursor <= |t| && Spread(toks, cursor, |t|)
    ensures Stand(t, DigitsOf(Removed(t, toks, cursor)), at, cursor, |t|) && AllOutside(toks, at)
    decreases |toks|
  {
    if toks == [] {
      at := SliceStands(t, cursor, |t|);
      assert t[cursor..|t|] == t[cursor..];
    } else {
      var head := SliceStands(t, cursor, toks[0].start);
      var rest := RemovedStands(t, toks[1..], toks[0].end);
      at := head + rest;
      var a, b := t[cursor..toks[0].start], Removed(t, toks[1..], toks[0].end);
      DigitsAppend(a, b);
      StandWider(t, DigitsOf(b), rest, toks[0].end, |t|, toks[0].start, |t|);
      StandThen(t, DigitsOf(a), head, cursor, toks[0].start, DigitsOf(b), rest, |t|);
      StandRange(t, DigitsOf(a), head, cursor, toks[0].start);
      StandRange(t, DigitsOf(b), rest, toks[0].end, |t|);
      OutsideBoth(toks, cursor, |t|, head, rest);
    }
  }

  lemma {:induction false} OutsideBoth(toks: seq<Token>, lo: nat, n: nat, head: seq<nat>, rest: seq<nat>)
    requires toks != [] && Spread(toks, lo, n)
    requires forall k :: 0 <= k < |head| ==> head[k] < toks[0].start
    requires forall k :: 0 <= k < |rest| ==> rest[k] >= toks[0].end
    requires AllOutside(toks[1..], rest)
    ensures AllOutside(toks, head + rest)
  {
    forall k | 0 <= k < |head + rest|
      ensures !Inside(toks, (head + rest)[k])
    {
      if k < |head| {
        BeforeFirst(toks, lo, n, head[k]);
      } else {
        PastFirst(toks, rest[k - |head|]);
      }
    }
  }

  /** The readable text keeps every digit outside the citations. */
  lemma {:induction false} DigitStays(text: Text, keep: Keep, cn: Worth, i: nat)
    requires Utf8(text) && i < |text| && text[i].Lead? && IsDigit(text[i].ch) && !Inside(Tokens(text, 0), i)
    ensures i < |Readable(text, keep, cn)| && Readable(text, keep, cn)[i] == text[i]
  {
    var m := MaskOf(text, Tokens(text, 0));
    TokensOrdered(text, 0);
    MaskedUtf8(text, Tokens(text, 0), m);
    OffsetsStable(m, keep, cn);
    assert m[i] == text[i];
    assert StableAt(m[i], Readable(text, keep, cn)[i]);
  }

  /** Byte `i` of the readable text lies in a claim that a cited fact supports, or in a token
      passed over because it is a list marker or touches a letter. */
  ghost predicate Accounted(v: Vocabulary, facts: seq<Fact>, n: Text, groups: seq<Group>, i: nat)
    requires Prepared(n, groups)
  {
    || (exists c, k :: c in Numbers(n, 0) && c.start <= i < c.end && 0 <= k < |groups| && NumberOwned(v, facts, n, groups, k, c))
    || (exists s: nat, e: nat :: PassedOver(n, s, e) && s <= i < e)
  }

  lemma {:induction false} DigitAccounted(v: Vocabulary, facts: seq<Fact>, n: Text, groups: seq<Group>, i: nat)
    requires Prepared(n, groups) && AllNumbersOwned(v, facts, n, groups) && i < |n| && DigitAt(n, i)
    ensures Accounted(v, facts, n, groups, i)
  {
    DigitsCovered(n, 0, i);
    if Covers(Numbers(n, 0), i) {
      var j :| 0 <= j < |Numbers(n, 0)| && Numbers(n, 0)[j].start <= i < Numbers(n, 0)[j].end;
      var c := Numbers(n, 0)[j];
      assert c in Numbers(n, 0);
      var k :| 0 <= k < |groups| && NumberOwned(v, facts, n, groups, k, c);
    }
  }

  /** The digits of the display are digits of the text outside its citations, in order. */
  lemma {:induction false} ShownDigits(text: Text) returns (at: seq<nat>)
    requires Utf8(text)
    ensures Spread(Tokens(text, 0), 0, |text|)
    ensures Stand(text, DigitsOf(Tidy(Removed(text, Tokens(text, 0), 0))), at, 0, |text|)
    ensures forall k :: 0 <= k < |at| ==> at[k] < |text| && DigitAt(text, at[k]) && !Inside(Tokens(text, 0), at[k])
  {
    StrippingKeepsVisible(text);
    var toks := Tokens(text, 0);
    var outside := Removed(text, toks, 0);
    at := RemovedStands(text, toks, 0);
    VisibleDigits(outside);
    VisibleDigits(Tidy(outside));
    StandRange(text, DigitsOf(outside), at, 0, |text|);
  }

  /** Every digit shown belongs to a claim that a fact cited in its segment supports, or to a
      list marker or a token that touches a letter. */
  lemma {:induction false} ShownDigitsAccounted(v: Vocabulary, facts: seq<Fact>, text: Text, keep: Keep, cn: Worth)
    returns (at: seq<nat>)
    requires Utf8(text) && Accepts(v, facts, text, keep, cn)
    ensures Spread(Tokens(text, 0), 0, |text|) && Prepared(Readable(text, keep, cn), GroupsIn(text))
    ensures Stand(text, DigitsOf(Tidy(Removed(text, Tokens(text, 0), 0))), at, 0, |text|)
    ensures forall k :: 0 <= k < |at| ==> Accounted(v, facts, Readable(text, keep, cn), GroupsIn(text), at[k])
  {
    at := ShownDigits(text);
    AcceptsExactly(v, facts, text, keep, cn);
    forall k | 0 <= k < |at|
      ensures Accounted(v, facts, Readable(text, keep, cn), GroupsIn(text), at[k])
    {
      DigitStays(text, keep, cn, at[k]);
      DigitAccounted(v, facts, Readable(text, keep, cn), GroupsIn(text), at[k]);
    }
  }

  // ---------- numerals become claims ----------

  /** A character that names a unit of a number. */
  predicate UnitChar(c: char) { CountUnit(c) || c in "万亿%％倍成" }

  /** No unit is a digit, a mark of a list or a date, a letter or white space. */
  lemma {:induction false} UnitCharPlain(c: char)
    requires UnitChar(c)
    ensures c as int >= 0x3000 || c == '%'
    ensures c != '、' && c != '）' && c != '月' && c != '日' && c != '时' && c != '分' && c as int != 0x3000
  {
  }

  lemma {:induction false} DigitsEnd(n: Text, i: nat, stop: nat)
    requires i <= stop < |n| && forall k :: i <= k < stop ==> DigitAt(n, k)
    requires n[stop].Lead? && UnitChar(n[stop].ch)
    ensures NumberEnd(n, i, false) == stop
    decreases stop - i
  {
    UnitCharPlain(n[stop].ch);
    if i < stop {
      assert DigitAt(n, i);
      DigitsEnd(n, i + 1, stop);
    }
  }

  lemma {:induction false} NoPoint(t: Text, i: nat)
    requires i <= |t| && Digits(t)
    ensures Find(t, i, '.') == |t|
    decreases |t| - i
  {
    if i < |t| {
      NoPoint(t, i + 1);
    }
  }

  lemma {:induction false} DecimalValue(w: nat)
    ensures Value(Decimal(w)) == w as real
  {
    var raw := Decimal(w);
    DecimalDigits(w);
    NoPoint(raw, 0);
    DecimalReads(w);
    assert raw[|raw|..] == [];
    assert Pow10(0) == 1;
    assert raw[0].Lead? && IsDigit(raw[0].ch);
  }

  /** The unit a number before `c` has: four digits before the year sign are a date. */
  function UnitBefore(c: char, after: Option<char>, digits: nat): Unit {
    if c == '年' && digits == 4 then Date else UnitOf(Some(c), after)
  }

  lemma {:induction false} DigitsPlain(t: Text)
    requires Digits(t)
    ensures PlainLength(t) == |t|
  {
    if t != [] {
      DigitsPlain(t[1..]);
    }
  }

  /** Digits between a blank and a unit are one claim, with that unit. */
  lemma {:induction false} DigitsAreClaim(n: Text, p: nat, stop: nat)
    requires 0 < p < stop < |n| && n[p - 1] == SPACE && Digits(n[p..stop])
    requires n[stop].Lead? && UnitChar(n[stop].ch)
    ensures TokenStart(n, p) && DigitsStart(n, p) == p && NumberEnd(n, p, false) == stop
    ensures ClaimAt(n, p, p, stop) ==
      Some(Number(UnitBefore(n[stop].ch, CharAt(n, After(n, stop)), stop - p), n[p..stop]))
  {
    forall k | p <= k < stop
      ensures DigitAt(n, k)
    {
      assert n[k] == n[p..stop][k - p];
    }
    DigitsEnd(n, p, stop);
    DigitsPlain(n[p..stop]);
    assert CharBefore(n, p) == Some(' ');
    UnitCharPlain(n[stop].ch);
    assert UnitIndex(n, stop) == stop;
    UnitMeaning(n[p..stop], n[stop].ch, CharAt(n, After(n, stop)));
  }

  lemma {:induction false} UnitMeaning(raw: Text, c: char, after: Option<char>)
    requires UnitChar(c) && PlainLength(raw) == |raw|
    ensures Meaning(raw, raw, Some(' '), Some(c), Some(c), after) == Some(Number(UnitBefore(c, after, |raw|), raw))
  {
    UnitCharPlain(c);
  }

  lemma {:induction false} TokenIsFound(n: Text, p: nat, stop: nat, c: Claim)
    requires Utf8(n) && 0 < p < stop <= |n| && n[p - 1] == SPACE
    requires TokenStart(n, p) && DigitsStart(n, p) == p && NumberEnd(n, p, false) == stop
    requires ClaimAt(n, p, p, stop) == Some(c.what) && c.start == p && c.end == stop
    ensures c in Numbers(n, 0)
  {
    NumbersBefore(n, 0, p - 1, p, stop);
    NumbersToken(n, p);
    assert c in Numbers(n, p);
    WithinMembers(Numbers(n, p), p, stop, c);
    WithinMembers(Numbers(n, 0), p, stop, c);
  }

  /** The pad and the digits of a rewritten run, in the rewritten text. */
  lemma {:induction false} RunShows(n: Text, start: nat, stop: nat, pad: nat, digits: Text)
    requires start < stop <= |n| && 0 < pad && pad + |digits| == stop - start && digits != []
    requires n[start..stop] == Spaces(pad) + digits
    ensures n[start + pad - 1] == SPACE && n[start + pad..stop] == digits
  {
    var s := n[start..stop];
    assert s[pad - 1] == Spaces(pad)[pad - 1];
    assert s[pad..] == digits && s[pad..] == n[start + pad..stop];
  }

  lemma {:induction false} RunEndStops(t: Text, i: nat)
    requires i <= |t|
    ensures RunEnd(t, i) < |t| ==> !NumeralByte(t[RunEnd(t, i)])
    decreases |t| - i
  {
    if i < |t| && NumeralByte(t[i]) {
      RunEndStops(t, i + 1);
    }
  }

  /** No numeral stands right behind a run. */
  lemma {:induction false} RunStops(t: Text, i: nat, keep: Keep, r: Run)
    requires i <= |t| && r in Runs(t, i, keep)
    ensures r.start < r.stop <= |t| && (r.stop < |t| ==> !NumeralByte(t[r.stop]))
    decreases |t| - i
  {
    if t[i].Lead? && IsNumeral(t[i].ch) {
      RunEndStops(t, i + 1);
      if r != Run(i, RunEnd(t, i + 1)) {
        RunStops(t, RunEnd(t, i + 1), keep, r);
      }
    } else {
      RunStops(t, i + 1, keep, r);
    }
  }

  lemma {:induction false} RewrittenRun(t: Text, keep: Keep, cn: Worth, r: Run, w: nat)
    requires r in Runs(t, 0, keep) && r.start < r.stop <= |t|
    requires cn(Zeros(t[r.start..r.stop])) == Some(w) && |Decimal(w)| < r.stop - r.start
    ensures Normalized(t, keep, cn)[r.start..r.stop] == Spaces(r.stop - r.start - |Decimal(w)|) + Decimal(w)
  {
    RunsOrdered(t, 0, keep);
    RewrittenIn(t, Runs(t, 0, keep), cn, r, w);
  }

  lemma {:induction false} RewrittenIn(t: Text, runs: seq<Run>, cn: Worth, r: Run, w: nat)
    requires RunsIn(runs, t, 0) && r in runs && r.start < r.stop <= |t|
    requires cn(Zeros(t[r.start..r.stop])) == Some(w) && |Decimal(w)| < r.stop - r.start
    ensures RewriteAll(t, runs, 0, cn)[r.start..r.stop] == Spaces(r.stop - r.start - |Decimal(w)|) + Decimal(w)
  {
    var k :| 0 <= k < |runs| && runs[k] == r;
    RunReads(t, runs, 0, cn, k);
  }

  lemma {:induction false} BehindRunStays(t: Text, keep: Keep, cn: Worth, i: nat)
    requires Utf8(t) && i < |t| && !NumeralByte(t[i])
    ensures Normalized(t, keep, cn)[i] == t[i]
  {
    OffsetsStable(t, keep, cn);
    assert StableAt(t[i], Normalized(t, keep, cn)[i]);
  }

  /** A Chinese numeral is checked as the number it stands for: a run worth `w`, longer than
      the digits of `w` and with a unit right behind it, is a claim of the rewritten text
      whose value is `w` and whose unit is that one. */
  lemma {:induction false} NumeralIsClaim(t: Text, keep: Keep, cn: Worth, r: Run, w: nat) returns (c: Claim)
    requires Utf8(t) && r in Runs(t, 0, keep)
    requires r.start < r.stop < |t| && t[r.stop].Lead? && UnitChar(t[r.stop].ch)
    requires cn(Zeros(t[r.start..r.stop])) == Some(w) && |Decimal(w)| < r.stop - r.start
    ensures c in Numbers(Normalized(t, keep, cn), 0) && c.start == r.stop - |Decimal(w)| && c.end == r.stop
    ensures c.what.Number? && c.what.raw == Decimal(w) && Value(c.what.raw) == w as real
    ensures exists after :: c.what.unit == UnitBefore(t[r.stop].ch, after, |Decimal(w)|)
    ensures var n := Normalized(t, keep, cn); Utf8(n) && 0 < c.start && n[c.start - 1] == SPACE && n[c.end] == t[r.stop]
  {
    var n, digits := Normalized(t, keep, cn), Decimal(w);
    RewrittenDigits(t, keep, cn, r, w);
    DecimalDigits(w);
    DecimalValue(w);
    c := ClaimFound(n, r.stop - |digits|, r.stop, digits);
  }

  lemma {:induction false} RewrittenDigits(t: Text, keep: Keep, cn: Worth, r: Run, w: nat)
    requires Utf8(t) && r in Runs(t, 0, keep) && r.start < r.stop < |t|
    requires cn(Zeros(t[r.start..r.stop])) == Some(w) && |Decimal(w)| < r.stop - r.start
    ensures var n, p := Normalized(t, keep, cn), r.stop - |Decimal(w)|;
      Utf8(n) && 0 < p && n[p - 1] == SPACE && n[p..r.stop] == Decimal(w) && n[r.stop] == t[r.stop]
  {
    var n, digits := Normalized(t, keep, cn), Decimal(w);
    RunStops(t, 0, keep, r);
    OffsetsStable(t, keep, cn);
    RewrittenRun(t, keep, cn, r, w);
    RunShows(n, r.start, r.stop, r.stop - |digits| - r.start, digits);
    BehindRunStays(t, keep, cn, r.stop);
  }

  lemma {:induction false} ClaimFound(n: Text, p: nat, stop: nat, digits: Text) returns (c: Claim)
    requires Utf8(n) && 0 < p < stop < |n| && n[p - 1] == SPACE && n[p..stop] == digits && Digits(digits)
    requires n[stop].Lead? && UnitChar(n[stop].ch)
    ensures c in Numbers(n, 0) && c.start == p && c.end == stop && c.what.Number? && c.what.raw == digits
    ensures exists after :: c.what.unit == UnitBefore(n[stop].ch, after, |digits|)
  {
    DigitsAreClaim(n, p, stop);
    var after := CharAt(n, After(n, stop));
    c := Claim(Number(UnitBefore(n[stop].ch, after, |digits|), digits), p, stop);
    TokenIsFound(n, p, stop, c);
  }
}
