/** What it takes for a cited fact to back a claim, read off the bytes of the claim's segment
    (crates/agent/src/answer_contract.rs:345-502 and 866-1060): the words that stand there,
    the amounts compared, the metric carried over. */
module Backing {
  import opened Text
  import opened References
  import opened Stripping
  import opened Numerals
  import opened Claims
  import opened Locality
  import opened Facts
  import opened Ledger
  import opened Clauses
  import opened Contract
  import opened Acceptance

  // ---------- words ----------

  ghost predicate SpelledAt(t: Text, i: nat, w: Text) {
    i + |w| <= |t| && forall k :: 0 <= k < |w| ==> t[i + k] == w[k]
  }

  /** The bytes of `w` stand somewhere in `t`. */
  ghost predicate Holds(t: Text, w: Text) {
    exists i :: SpelledAt(t, i, w)
  }

  /** At least two characters. */
  ghost predicate TwoChars(t: Text) {
    exists i, j :: 0 <= i < j < |t| && t[i].Lead? && t[j].Lead?
  }

  /** A word a label may be named by: itself, or without one of the suffixes if two
      characters are left. */
  ghost predicate StandsFor(v: Vocabulary, tag: Text, a: Text) {
    a == Trim(tag) || (TwoChars(a) && exists x :: x in v.suffixes && Trim(tag) == a + x)
  }

  ghost predicate Named(v: Vocabulary, segment: Text, tag: Text) {
    exists a :: StandsFor(v, tag, a) && TwoChars(a) && Holds(segment, a)
  }

  lemma {:induction false} HoldsIs(t: Text, w: Text)
    ensures Contains(t, w) <==> Holds(t, w)
  {
    if i: nat :| i <= |t| && OccursAt(t, i, w) {
      var s := t[i..i + |w|];
      assert forall k :: 0 <= k < |w| ==> s[k] == t[i + k];
      assert SpelledAt(t, i, w);
    }
    if i: nat :| SpelledAt(t, i, w) {
      assert t[i..i + |w|] == w;
      assert OccursAt(t, i, w);
    }
  }

  lemma {:induction false} SomeChar(t: Text) returns (i: nat)
    requires CharCount(t) >= 1
    ensures i < |t| && t[i].Lead?
  {
    i := 0;
    if !t[0].Lead? {
      i := SomeChar(t[1..]);
      i := i + 1;
    }
  }

  lemma {:induction false} CharCounted(t: Text, i: nat)
    requires i < |t| && t[i].Lead?
    ensures CharCount(t) >= 1
  {
    if i > 0 {
      assert t[1..][i - 1] == t[i];
      CharCounted(t[1..], i - 1);
    }
  }

  lemma {:induction false} TwoCharsIs(t: Text)
    ensures CharCount(t) >= 2 <==> TwoChars(t)
  {
    if CharCount(t) >= 2 {
      var i, j := TwoCharsIn(t);
    }
    if i, j :| 0 <= i < j < |t| && t[i].Lead? && t[j].Lead? {
      TwoCounted(t, i, j);
    }
  }

  lemma {:induction false} TwoCharsIn(t: Text) returns (i: nat, j: nat)
    requires CharCount(t) >= 2
    ensures i < j < |t| && t[i].Lead? && t[j].Lead?
  {
    if t[0].Lead? {
      i := 0;
      j := SomeChar(t[1..]);
      j := j + 1;
    } else {
      i, j := TwoCharsIn(t[1..]);
      i, j := i + 1, j + 1;
    }
  }

  lemma {:induction false} TwoCounted(t: Text, i: nat, j: nat)
    requires i < j < |t| && t[i].Lead? && t[j].Lead?
    ensures CharCount(t) >= 2
  {
    assert t[1..][j - 1] == t[j];
    if i == 0 {
      CharCounted(t[1..], j - 1);
    } else {
      assert t[1..][i - 1] == t[i];
      TwoCounted(t[1..], i - 1, j - 1);
    }
  }

  /** Trimming takes off white space and nothing else, from both ends, as far as it goes. */
  lemma {:induction false} TrimExact(t: Text) returns (i: nat, j: nat)
    requires Utf8(t)
    ensures i <= j <= |t| && Trim(t) == t[i..j] && Blank(t[..i]) && Blank(t[j..])
    ensures i < j ==> t[i].Lead? && !IsSpace(t[i].ch) && Boundary(t, j) && !BlankBefore(t, j)
  {
    i := TrimStartExact(t);
    SliceUtf8(t, i, |t|);
    assert t[i..|t|] == TrimStart(t);
    var k := TrimEndExact(t[i..]);
    j := i + k;
    assert Trim(t) == t[i..][..k] == t[i..j];
    assert t[i..][k..] == t[j..];
    if i < j {
      BlankBehind(t, i, j);
    }
  }

  lemma {:induction false} BlankBehind(t: Text, i: nat, j: nat)
    requires i < j <= |t| && t[i].Lead?
    ensures BlankBefore(t, j) ==> BlankBefore(t[i..], j - i)
  {
    if BlankBefore(t, j) {
      var q: nat :| q < j && t[q].Lead? && IsSpace(t[q].ch) && forall x :: q < x < j ==> t[x].Cont?;
      assert t[i..][q - i] == t[q] && forall x :: q - i < x < j - i ==> t[i..][x] == t[i + x];
    }
  }

  /** The last character before byte `j` is white space. */
  ghost predicate BlankBefore(t: Text, j: nat) {
    j <= |t| && exists q :: 0 <= q < j && t[q].Lead? && IsSpace(t[q].ch) && forall x :: q < x < j ==> t[x].Cont?
  }

  lemma {:induction false} DropContsExact(t: Text, w: nat)
    requires w <= |t| && (forall k :: 0 <= k < w ==> t[k].Cont?) && (w < |t| ==> t[w].Lead?)
    ensures DropConts(t) == t[w..]
  {
    if w > 0 {
      DropContsExact(t[1..], w - 1);
      assert t[1..][w - 1..] == t[w..];
    }
  }

  lemma {:induction false} BlankBoth(t: Text, w: nat, i: nat)
    requires w <= i <= |t| && Blank(t[..w]) && Blank(t[w..][..i - w])
    ensures Blank(t[..i])
  {
    forall x | 0 <= x < i && t[x].Lead?
      ensures IsSpace(t[x].ch)
    {
      if x < w {
        assert t[..w][x] == t[x];
      } else {
        assert t[w..][..i - w][x - w] == t[x];
      }
    }
  }

  lemma {:induction false} FirstBlank(t: Text) returns (w: nat)
    requires Utf8(t) && t != [] && IsSpace(t[0].ch)
    ensures 0 < w <= |t| && Blank(t[..w]) && TrimStart(t) == TrimStart(t[w..]) && Utf8(t[w..])
  {
    w := Width(t[0].ch);
    assert Whole(t, 0);
    DropContsExact(t[1..], w - 1);
    assert t[1..][w - 1..] == t[w..];
    SliceUtf8(t, w, |t|);
    assert t[w..|t|] == t[w..];
  }

  lemma {:induction false} TrimStartExact(t: Text) returns (i: nat)
    requires Utf8(t)
    ensures i <= |t| && TrimStart(t) == t[i..] && Blank(t[..i]) && Boundary(t, i)
    ensures i < |t| ==> t[i].Lead? && !IsSpace(t[i].ch)
    decreases |t|
  {
    i := 0;
    if t != [] && IsSpace(t[0].ch) {
      var w := FirstBlank(t);
      var k := TrimStartExact(t[w..]);
      i := w + k;
      BlankBoth(t, w, i);
      assert t[w..][k..] == t[i..];
    }
  }

  lemma {:induction false} LastStartExact(t: Text, n: nat)
    requires n <= |t| && t != [] && t[0].Lead? && n > 0
    ensures var k := LastStart(t, n); k < n && t[k].Lead? && forall x :: k < x < n ==> t[x].Cont?
  {
    if !t[n - 1].Lead? {
      LastStartExact(t, n - 1);
    }
  }

  /** The last character, and whether it is white space. */
  lemma {:induction false} LastBlank(t: Text) returns (k: nat)
    requires Utf8(t) && t != []
    ensures k < |t| && k == LastStart(t, |t|) && t[k].Lead? && Utf8(t[..k]) && (BlankBefore(t, |t|) <==> IsSpace(t[k].ch))
    ensures IsSpace(t[k].ch) ==> Blank(t[k..])
  {
    LastStartExact(t, |t|);
    k := LastStart(t, |t|);
    SliceUtf8(t, 0, k);
    assert t[0..k] == t[..k];
    forall x | 0 <= x < |t[k..]| && t[k..][x].Lead?
      ensures x == 0
    {
      assert t[k..][x] == t[k + x];
    }
    assert t[k..][0] == t[k];
  }

  lemma {:induction false} BlankTail(t: Text, k: nat, j: nat)
    requires j <= k <= |t| && Blank(t[..k][j..]) && Blank(t[k..])
    ensures Blank(t[j..])
  {
    forall x | 0 <= x < |t[j..]| && t[j..][x].Lead?
      ensures IsSpace(t[j..][x].ch)
    {
      if j + x < k {
        assert t[..k][j..][x] == t[j..][x];
      } else {
        assert t[k..][j + x - k] == t[j..][x];
      }
    }
  }

  lemma {:induction false} BlankBeforeCut(t: Text, k: nat, j: nat)
    requires j <= k <= |t|
    ensures BlankBefore(t, j) <==> BlankBefore(t[..k], j)
  {
    assert forall x :: 0 <= x < j ==> t[..k][x] == t[x];
  }

  lemma {:induction false} TrimEndExact(t: Text) returns (j: nat)
    requires Utf8(t)
    ensures j <= |t| && TrimEnd(t) == t[..j] && Blank(t[j..]) && Boundary(t, j) && !BlankBefore(t, j)
    decreases |t|
  {
    j := |t|;
    if t != [] {
      var k := LastBlank(t);
      if IsSpace(t[k].ch) {
        j := TrimEndExact(t[..k]);
        assert t[..k][..j] == t[..j];
        BlankTail(t, k, j);
        BlankBeforeCut(t, k, j);
      }
    }
  }

  lemma {:induction false} StripSuffixIs(t: Text, x: Text, a: Text)
    ensures StripSuffix(t, x) == Some(a) <==> t == a + x
  {
    if t == a + x {
      assert t[|t| - |x|..] == x && t[..|t| - |x|] == a;
    }
    if StripSuffix(t, x) == Some(a) {
      assert t == t[..|t| - |x|] + t[|t| - |x|..];
    }
  }

  lemma {:induction false} ShortFormsAre(t: Text, suffixes: seq<Text>, a: Text)
    ensures a in ShortForms(t, suffixes) <==> CharCount(a) >= 2 && exists x :: x in suffixes && t == a + x
  {
    if suffixes != [] {
      ShortFormsAre(t, suffixes[1..], a);
      StripSuffixIs(t, suffixes[0], a);
      assert suffixes == [suffixes[0]] + suffixes[1..];
    }
  }

  lemma {:induction false} AliasesAre(v: Vocabulary, tag: Text, a: Text)
    ensures a in Aliases(v, tag) <==> StandsFor(v, tag, a)
  {
    ShortFormsAre(Trim(tag), v.suffixes, a);
    TwoCharsIs(a);
  }

  lemma {:induction false} NamedIs(v: Vocabulary, segment: Text, tag: Text)
    ensures Names(v, segment, tag) <==> Named(v, segment, tag)
  {
    forall a
      ensures a in Aliases(v, tag) <==> StandsFor(v, tag, a)
      ensures CharCount(a) >= 2 <==> TwoChars(a)
      ensures Contains(segment, a) <==> Holds(segment, a)
    {
      AliasesAre(v, tag, a);
      TwoCharsIs(a);
      HoldsIs(segment, a);
    }
  }

  // ---------- words, upper and lower case alike ----------

  predicate SameLetter(a: Byte, b: Byte) {
    || a == b
    || (a.Lead? && b.Lead? && IsAsciiLetter(a.ch) && IsAsciiLetter(b.ch)
        && (a.ch as int - b.ch as int == 32 || b.ch as int - a.ch as int == 32))
  }

  ghost predicate AlikeAt(t: Text, i: nat, w: Text) {
    i + |w| <= |t| && forall k :: 0 <= k < |w| ==> SameLetter(t[i + k], w[k])
  }

  ghost predicate Alike(s: Text, t: Text) {
    |s| == |t| && AlikeAt(s, 0, t)
  }

  ghost predicate HoldsAlike(t: Text, w: Text) {
    exists i :: AlikeAt(t, i, w)
  }

  /** Two labels of the same scope: names of theirs are alike, or one stands in the other. */
  ghost predicate Compatible(v: Vocabulary, left: Text, right: Text) {
    exists a, b :: StandsFor(v, left, a) && StandsFor(v, right, b) && AlikeWords(a, b)
  }

  ghost predicate AlikeWords(a: Text, b: Text) {
    Alike(a, b) || (TwoChars(a) && TwoChars(b) && (HoldsAlike(a, b) || HoldsAlike(b, a)))
  }

  lemma {:induction false} LowerAt(s: Text, i: nat, t: Text, j: nat)
    requires i < |s| && j < |t|
    ensures Lower(s)[i] == Lower(t)[j] <==> SameLetter(s[i], t[j])
  {
  }

  lemma {:induction false} LowerHolds(t: Text, i: nat, w: Text)
    ensures SpelledAt(Lower(t), i, Lower(w)) <==> AlikeAt(t, i, w)
  {
    if i + |w| <= |t| {
      forall k | 0 <= k < |w|
        ensures Lower(t)[i + k] == Lower(w)[k] <==> SameLetter(t[i + k], w[k])
      {
        LowerAt(t, i + k, w, k);
      }
    }
  }

  lemma {:induction false} LowerSame(s: Text, t: Text)
    ensures Lower(s) == Lower(t) <==> Alike(s, t)
  {
    LowerHolds(s, 0, t);
    assert |s| == |t| && SpelledAt(Lower(s), 0, Lower(t)) ==> Lower(s) == Lower(t);
  }

  lemma {:induction false} LowerChars(t: Text)
    ensures TwoChars(Lower(t)) <==> TwoChars(t)
  {
    assert forall i :: 0 <= i < |t| ==> (Lower(t)[i].Lead? <==> t[i].Lead?);
  }

  lemma {:induction false} HoldsAlikeIs(t: Text, w: Text)
    ensures Contains(Lower(t), Lower(w)) <==> HoldsAlike(t, w)
  {
    HoldsIs(Lower(t), Lower(w));
    forall i: nat
      ensures SpelledAt(Lower(t), i, Lower(w)) <==> AlikeAt(t, i, w)
    {
      LowerHolds(t, i, w);
    }
  }

  lemma {:induction false} AlikeWordsAre(a: Text, b: Text)
    ensures AliasCompatible(a, b) <==> AlikeWords(a, b)
  {
    LowerSame(a, b);
    TwoCharsIs(Lower(a));
    TwoCharsIs(Lower(b));
    LowerChars(a);
    LowerChars(b);
    HoldsAlikeIs(a, b);
    HoldsAlikeIs(b, a);
  }

  lemma {:induction false} CompatibleIs(v: Vocabulary, left: Text, right: Text)
    ensures ScopeCompatible(v, left, right) <==> Compatible(v, left, right)
  {
    forall a
      ensures a in Aliases(v, left) <==> StandsFor(v, left, a)
      ensures a in Aliases(v, right) <==> StandsFor(v, right, a)
    {
      AliasesAre(v, left, a);
      AliasesAre(v, right, a);
    }
    forall a, b
      ensures AliasCompatible(a, b) <==> AlikeWords(a, b)
    {
      AlikeWordsAre(a, b);
    }
  }

  // ---------- the labels a segment names ----------

  /** A metric of the contract, or a subject or source of it. */
  ghost predicate LabelOf(facts: seq<Fact>, metric: bool, m: Text) {
    exists f :: f in facts && if metric then m == f.metric else m in f.subjects || m == f.source
  }

  /** The segment names label `m`, and no longer label that holds it is spelled out. */
  ghost predicate Mentions(v: Vocabulary, facts: seq<Fact>, metric: bool, segment: Text, m: Text) {
    LabelOf(facts, metric, m) && Named(v, segment, m) && !Eclipsed(v, facts, metric, segment, m)
  }

  ghost predicate Eclipsed(v: Vocabulary, facts: seq<Fact>, metric: bool, segment: Text, m: Text) {
    exists l :: LabelOf(facts, metric, l) && Named(v, segment, l)
                && CharCount(l) > CharCount(m) && Holds(segment, l) && Holds(l, m)
  }

  lemma {:induction false} MatchedAre(v: Vocabulary, segment: Text, labels: seq<Text>, m: Text)
    ensures m in Matched(v, segment, labels) <==> m in labels && Named(v, segment, m)
  {
    if labels != [] {
      MatchedAre(v, segment, labels[1..], m);
      NamedIs(v, segment, labels[0]);
    }
  }

  lemma {:induction false} UnshadowedAre(segment: Text, labels: seq<Text>, all: seq<Text>, m: Text)
    ensures m in Unshadowed(segment, labels, all) <==> m in labels && !Shadowed(segment, m, all)
  {
    if labels != [] {
      UnshadowedAre(segment, labels[1..], all, m);
    }
  }

  lemma {:induction false} SubjectLabelsAre(facts: seq<Fact>, m: Text)
    ensures m in SubjectLabels(facts) <==> LabelOf(facts, false, m)
  {
    if facts != [] {
      SubjectLabelsAre(facts[1..], m);
      assert facts == [facts[0]] + facts[1..];
    }
  }

  lemma {:induction false} MetricLabelsAre(facts: seq<Fact>, m: Text)
    ensures m in MetricLabels(facts) <==> LabelOf(facts, true, m)
  {
    if facts != [] {
      MetricLabelsAre(facts[1..], m);
      assert facts == [facts[0]] + facts[1..];
    }
  }

  function Labels(facts: seq<Fact>, metric: bool): seq<Text> {
    if metric then MetricLabels(facts) else SubjectLabels(facts)
  }

  lemma {:induction false} LabelsAre(facts: seq<Fact>, metric: bool, m: Text)
    ensures m in Labels(facts, metric) <==> LabelOf(facts, metric, m)
  {
    SubjectLabelsAre(facts, m);
    MetricLabelsAre(facts, m);
  }

  lemma {:induction false} EclipsedIs(v: Vocabulary, facts: seq<Fact>, metric: bool, segment: Text, m: Text)
    ensures Shadowed(segment, m, Matched(v, segment, Labels(facts, metric))) <==> Eclipsed(v, facts, metric, segment, m)
  {
    forall l
      ensures l in Matched(v, segment, Labels(facts, metric)) <==> LabelOf(facts, metric, l) && Named(v, segment, l)
      ensures Contains(segment, l) <==> Holds(segment, l)
      ensures Contains(l, m) <==> Holds(l, m)
    {
      MatchedAre(v, segment, Labels(facts, metric), l);
      LabelsAre(facts, metric, l);
      HoldsIs(segment, l);
      HoldsIs(l, m);
    }
  }

  lemma {:induction false} MentionsAre(v: Vocabulary, facts: seq<Fact>, metric: bool, segment: Text, m: Text)
    ensures m in Mentioned(v, segment, Labels(facts, metric)) <==> Mentions(v, facts, metric, segment, m)
  {
    var all := Matched(v, segment, Labels(facts, metric));
    UnshadowedAre(segment, all, all, m);
    MatchedAre(v, segment, Labels(facts, metric), m);
    LabelsAre(facts, metric, m);
    EclipsedIs(v, facts, metric, segment, m);
  }

  // ---------- subjects and metric ----------

  /** Nothing the segment names speaks against the fact, and it names every subject of the
      fact; of a numbered question without subjects, the question. */
  ghost predicate SubjectsStand(v: Vocabulary, facts: seq<Fact>, segment: Text, f: Fact) {
    && (forall m :: Mentions(v, facts, false, segment, m) ==> OnScope(v, f, m))
    && (forall s :: s in f.subjects ==> Named(v, segment, s))
    && (f.subjects == [] && |f.namespace| > 1 && f.namespace[0] == Lead('Q') ==> Named(v, segment, f.source))
  }

  ghost predicate OnScope(v: Vocabulary, f: Fact, m: Text) {
    Compatible(v, f.source, m) || Compatible(v, f.metric, m) || exists s :: s in f.subjects && Compatible(v, s, m)
  }

  lemma {:induction false} OnScopeIs(v: Vocabulary, f: Fact, m: Text)
    ensures (|| ScopeCompatible(v, f.source, m)
             || ScopeCompatible(v, f.metric, m)
             || exists s :: s in f.subjects && ScopeCompatible(v, s, m)) <==> OnScope(v, f, m)
  {
    forall s
      ensures ScopeCompatible(v, s, m) <==> Compatible(v, s, m)
    {
      CompatibleIs(v, s, m);
    }
  }

  lemma {:induction false} SubjectsStandIs(v: Vocabulary, facts: seq<Fact>, segment: Text, f: Fact)
    ensures SubjectsMatch(v, f, segment, Mentioned(v, segment, SubjectLabels(facts)))
       <==> SubjectsStand(v, facts, segment, f)
  {
    assert Labels(facts, false) == SubjectLabels(facts);
    forall m
      ensures m in Mentioned(v, segment, SubjectLabels(facts)) <==> Mentions(v, facts, false, segment, m)
      ensures Names(v, segment, m) <==> Named(v, segment, m)
    {
      MentionsAre(v, facts, false, segment, m);
      NamedIs(v, segment, m);
    }
    ScopesAgree(v, f);
    OtherQuestion(f.namespace);
  }

  lemma {:induction false} ScopesAgree(v: Vocabulary, f: Fact)
    ensures forall m ::
      (|| ScopeCompatible(v, f.source, m)
       || ScopeCompatible(v, f.metric, m)
       || exists s :: s in f.subjects && ScopeCompatible(v, s, m)) <==> OnScope(v, f, m)
  {
    forall m
      ensures (|| ScopeCompatible(v, f.source, m)
               || ScopeCompatible(v, f.metric, m)
               || exists s :: s in f.subjects && ScopeCompatible(v, s, m)) <==> OnScope(v, f, m)
    {
      OnScopeIs(v, f, m);
    }
  }

  lemma {:induction false} OtherQuestion(t: Text)
    ensures !Is(t, 0, 'Q') || t == Ascii("Q") <==> !(|t| > 1 && t[0] == Lead('Q'))
  {
    assert Ascii("Q")[0] == Lead('Q');
  }

  /** The segment names the fact's metric and none it conflicts with; or the unit of the
      number proves it; or `carried` is of its scope and nothing but scope and numbers is
      said. */
  ghost predicate MetricStands(v: Vocabulary, facts: seq<Fact>, segment: Text, f: Fact, unit: Unit, carried: Option<Text>) {
    && (forall m :: Mentions(v, facts, true, segment, m) ==> Compatible(v, f.metric, m))
    && (|| Named(v, segment, f.metric)
        || (exists c, w :: unit == Count(c) && w in v.unitWords(c) && Holds(f.metric, w))
        || (carried.Some? && Compatible(v, carried.value, f.metric) && v.onlyScopeAndNumber(segment, f)))
  }

  lemma {:induction false} UnitProvesIs(v: Vocabulary, unit: Unit, metric: Text)
    ensures UnitProvesMetric(v, unit, metric) <==>
      exists c, w :: unit == Count(c) && w in v.unitWords(c) && Holds(metric, w)
  {
    forall w
      ensures Contains(metric, w) <==> Holds(metric, w)
    {
      HoldsIs(metric, w);
    }
  }

  lemma {:induction false} MetricStandsIs(v: Vocabulary, facts: seq<Fact>, segment: Text, f: Fact, unit: Unit,
                                          carried: Option<Text>)
    ensures MetricMatches(v, f, segment, Mentioned(v, segment, MetricLabels(facts)), unit, carried)
       <==> MetricStands(v, facts, segment, f, unit, carried)
  {
    assert Labels(facts, true) == MetricLabels(facts);
    forall m
      ensures m in Mentioned(v, segment, MetricLabels(facts)) <==> Mentions(v, facts, true, segment, m)
      ensures ScopeCompatible(v, f.metric, m) <==> Compatible(v, f.metric, m)
    {
      MentionsAre(v, facts, true, segment, m);
      CompatibleIs(v, f.metric, m);
    }
    NamedIs(v, segment, f.metric);
    UnitProvesIs(v, unit, f.metric);
    if carried.Some? {
      CompatibleIs(v, carried.value, f.metric);
    }
  }

  // ---------- amounts ----------

  /** Apart by at most two to the power of -48 of `m`. */
  predicate Apart(x: real, y: real, m: real) {
    281474976710656.0 * (x - y) <= m && 281474976710656.0 * (y - x) <= m
  }

  /** Equal but for the noise, which grows with the larger of the two, and with one. */
  predicate Near(x: real, y: real) {
    Apart(x, y, 1.0) || Apart(x, y, x) || Apart(x, y, -x) || Apart(x, y, y) || Apart(x, y, -y)
  }

  lemma {:induction false} NoiseIs(d: real, m: real)
    ensures d <= NOISE * m <==> 281474976710656.0 * d <= m
  {
    assert NOISE * 281474976710656.0 == 1.0;
    assert 281474976710656.0 * (NOISE * m) == m;
  }

  lemma {:induction false} NearIs(x: real, y: real)
    ensures Close(x, y) <==> Near(x, y)
  {
    var m := Max(Max(Abs(x), Abs(y)), 1.0);
    NoiseIs(Abs(x - y), m);
  }

  /** What the claim says and what the fact says are the same amount: ten-thousands and
      hundred-millions at their value; a percentage as such or as a ratio; multipliers,
      counts and dates only among their own kind. */
  ghost predicate Agree(x: Evidence, y: Evidence) {
    && (x.unit.Multiplier? || x.unit.Date? || y.unit.Multiplier? || y.unit.Date? ==> x.unit == y.unit)
    && (x.unit.Count? && y.unit.Count? ==> x.unit == y.unit)
    && !(x.unit.Count? && y.unit.Percent?) && !(x.unit.Percent? && y.unit.Count?)
    && (|| Near(InFull(x), InFull(y))
        || (x.unit.Percent? && y.unit.Plain? && Near(x.value / 100.0, y.value))
        || (x.unit.Plain? && y.unit.Percent? && Near(x.value, y.value / 100.0)))
  }

  function InFull(e: Evidence): real {
    if e.unit.Wan? then 10000.0 * e.value else if e.unit.Yi? then 100000000.0 * e.value else e.value
  }

  predicate Plainly(u: Unit) { !u.Multiplier? && !u.Date? }

  lemma {:induction false} AgreeIs(x: Evidence, y: Evidence)
    ensures NumbersMatch(x, y) <==> Agree(x, y)
  {
    if Plainly(x.unit) && Plainly(y.unit) {
      AmountsAgree(x, y);
    } else {
      KindsAgree(x, y);
    }
  }

  lemma {:induction false} AmountsAgree(x: Evidence, y: Evidence)
    requires Plainly(x.unit) && Plainly(y.unit)
    ensures NumbersMatch(x, y) <==> Agree(x, y)
  {
    if x.unit == Percent && y.unit == Plain {
      NearIs(x.value / 100.0, y.value);
      NearIs(x.value, y.value);
    } else if x.unit == Plain && y.unit == Percent {
      NearIs(x.value, y.value / 100.0);
      NearIs(x.value, y.value);
    } else {
      InFullAgree(x, y);
    }
  }

  lemma {:induction false} InFullAgree(x: Evidence, y: Evidence)
    requires Plainly(x.unit) && Plainly(y.unit)
    requires !(x.unit == Percent && y.unit == Plain) && !(x.unit == Plain && y.unit == Percent)
    ensures NumbersMatch(x, y) <==> Agree(x, y)
  {
    BaseIs(x);
    BaseIs(y);
    NearIs(BaseValue(x), BaseValue(y));
  }

  lemma {:induction false} BaseIs(e: Evidence)
    ensures BaseValue(e) == InFull(e)
  {
  }

  lemma {:induction false} KindsAgree(x: Evidence, y: Evidence)
    requires !Plainly(x.unit) || !Plainly(y.unit)
    ensures NumbersMatch(x, y) <==> Agree(x, y)
  {
    NearIs(x.value, y.value);
  }

  // ---------- numbers of a segment ----------

  /** Number `c` of the text lies in bytes `a..b`. */
  ghost predicate NumberIn(n: Text, a: nat, b: nat, c: Claim) {
    c in Numbers(n, 0) && a <= c.start && c.end <= b
  }

  ghost predicate DateIn(n: Text, a: nat, b: nat, c: Claim) {
    NumberIn(n, a, b, c) && c.what.Number? && c.what.unit == Date
  }

  /** What a number says. */
  function Said(c: Claim): Evidence
    requires c.what.Number?
  {
    Evidence(Value(c.what.raw), c.what.unit)
  }

  /** The segment spells out a subject of the fact that has all its dates. */
  ghost predicate DateQuoted(f: Fact, n: Text, a: nat, b: nat)
    requires a <= b <= |n|
  {
    exists s :: s in f.subjects && Holds(n[a..b], s) && forall c :: DateIn(n, a, b, c) ==> DateOf(s, c)
  }

  ghost predicate DateOf(s: Text, c: Claim)
    requires c.what.Number?
  {
    exists d :: DateIn(s, 0, |s|, d) && Agree(Said(c), Said(d))
  }

  ghost predicate ValueStands(f: Fact, n: Text, a: nat, b: nat, c: Claim)
    requires a <= b <= |n| && c.what.Number?
  {
    (exists e :: e in f.numbers && Agree(Said(c), e)) || (c.what.unit == Date && DateQuoted(f, n, a, b))
  }

  /** Fact `f` backs number `c` of the segment `a..b`. */
  ghost predicate Backs(v: Vocabulary, facts: seq<Fact>, n: Text, a: nat, b: nat, carried: Option<Text>, f: Fact, c: Claim)
    requires a <= b <= |n|
  {
    && c.what.Number? && ValueStands(f, n, a, b, c)
    && SubjectsStand(v, facts, n[a..b], f) && MetricStands(v, facts, n[a..b], f, c.what.unit, carried)
  }

  lemma {:induction false} AllNumbersEnd(t: Text, d: Claim)
    ensures d in Numbers(t, 0) ==> d.end <= |t|
  {
    NumbersIn(t, 0, d);
  }

  lemma {:induction false} NumbersIn(t: Text, i: nat, d: Claim)
    requires i <= |t|
    ensures d in Numbers(t, i) ==> d.end <= |t|
    decreases |t| - i
  {
    if i < |t| {
      if TokenStart(t, i) {
        NumbersToken(t, i);
        NumbersIn(t, NumberEnd(t, DigitsStart(t, i), false), d);
      } else {
        NumbersIn(t, i + 1, d);
      }
    }
  }

  lemma {:induction false} DateOfIs(s: Text, c: Claim)
    requires c.what.Number?
    ensures DateOf(s, c) <==> exists d :: d in Numbers(s, 0) && IsDate(d) && NumbersMatch(EvidenceOf(c), EvidenceOf(d))
  {
    forall d
      ensures DateIn(s, 0, |s|, d) <==> d in Numbers(s, 0) && IsDate(d)
    {
      AllNumbersEnd(s, d);
    }
    forall d | IsDate(d)
      ensures NumbersMatch(EvidenceOf(c), EvidenceOf(d)) <==> Agree(Said(c), Said(d))
    {
      AgreeIs(EvidenceOf(c), EvidenceOf(d));
    }
  }

  lemma {:induction false} DateQuotedIs(f: Fact, n: Text, a: nat, b: nat, c: Claim)
    requires a <= b <= |n| && DateIn(n, a, b, c)
    ensures DateSubjectMatches(f, n[a..b], Within(Numbers(n, 0), a, b)) <==> DateQuoted(f, n, a, b)
  {
    var cs := Within(Numbers(n, 0), a, b);
    forall d
      ensures d in cs && IsDate(d) <==> DateIn(n, a, b, d)
    {
      WithinMembers(Numbers(n, 0), a, b, d);
    }
    forall s
      ensures Contains(n[a..b], s) <==> Holds(n[a..b], s)
      ensures (forall d :: d in cs && IsDate(d) ==>
                 exists e :: e in Numbers(s, 0) && IsDate(e) && NumbersMatch(EvidenceOf(d), EvidenceOf(e)))
          <==> (forall d :: DateIn(n, a, b, d) ==> DateOf(s, d))
    {
      HoldsIs(n[a..b], s);
      DatesAgree(s, cs, n, a, b);
    }
  }

  lemma {:induction false} DatesAgree(s: Text, cs: seq<Claim>, n: Text, a: nat, b: nat)
    requires forall d :: d in cs && IsDate(d) <==> DateIn(n, a, b, d)
    ensures (forall d :: d in cs && IsDate(d) ==>
               exists e :: e in Numbers(s, 0) && IsDate(e) && NumbersMatch(EvidenceOf(d), EvidenceOf(e)))
        <==> (forall d :: DateIn(n, a, b, d) ==> DateOf(s, d))
  {
    forall d | DateIn(n, a, b, d)
      ensures DateOf(s, d) <==> exists e :: e in Numbers(s, 0) && IsDate(e) && NumbersMatch(EvidenceOf(d), EvidenceOf(e))
    {
      DateOfIs(s, d);
    }
  }

  lemma {:induction false} ValueStandsIs(f: Fact, n: Text, a: nat, b: nat, c: Claim)
    requires a <= b <= |n| && NumberIn(n, a, b, c) && c.what.Number?
    ensures ((exists e :: e in f.numbers && NumbersMatch(EvidenceOf(c), e))
             || (c.what.unit == Date && DateSubjectMatches(f, n[a..b], Within(Numbers(n, 0), a, b))))
        <==> ValueStands(f, n, a, b, c)
  {
    forall e
      ensures NumbersMatch(EvidenceOf(c), e) <==> Agree(Said(c), e)
    {
      AgreeIs(EvidenceOf(c), e);
    }
    if c.what.unit == Date {
      DateQuotedIs(f, n, a, b, c);
    }
  }

  // ---------- cue words ----------

  /** The two characters of a cue word. */
  function CueWord(kind: Kind): (w: (char, char)) {
    match kind
    case Highest => ('最', '高')
    case Lowest => ('最', '低')
    case Growth => ('增', '长')
    case Decline => ('下', '降')
    case Lead' => ('领', '先')
    case Lag => ('落', '后')
    case Support => ('支', '持')
    case Forbid => ('禁', '止')
    case Require => ('必', '须')
    case Permit => ('可', '以')
    case Disallow => ('不', '可')
  }

  predicate WordAt(t: Text, i: nat, kind: Kind) {
    Is(t, i, CueWord(kind).0) && Is(t, i + 3, CueWord(kind).1)
  }

  function CueOf(kind: Kind, i: nat): Claim { Claim(Cue(kind), i, i + 6) }

  lemma {:induction false} KindIs(a: char, b: char, kind: Kind)
    ensures KindOf(a, b) == Some(kind) <==> CueWord(kind) == (a, b)
  {
  }

  lemma {:induction false} CueAtIs(t: Text, i: nat, kind: Kind)
    requires i < |t|
    ensures CueAt(t, i) == Some(Cue(kind)) <==> WordAt(t, i, kind)
  {
    if t[i].Lead? && IsLead(t, i + 3) {
      KindIs(t[i].ch, t[i + 3].ch, kind);
    }
  }

  lemma {:induction false} CuesFrom(t: Text, i: nat, c: Claim)
    requires i <= |t|
    ensures c in Cues(t, i) <==> i <= c.start && c.what.Cue? && c == CueOf(c.what.kind, c.start) && WordAt(t, c.start, c.what.kind)
    decreases |t| - i
  {
    if i < |t| {
      CuesFrom(t, i + 1, c);
      if c.what.Cue? {
        CueAtIs(t, i, c.what.kind);
      }
      CuesFirst(t, i, c);
    }
  }

  lemma {:induction false} CuesFirst(t: Text, i: nat, c: Claim)
    requires i < |t|
    ensures c in Cues(t, i) <==> (CueAt(t, i).Some? && c == Claim(CueAt(t, i).value, i, i + 6)) || c in Cues(t, i + 1)
  {
  }

  /** The cue words found in a text are the eleven words wherever they stand. */
  lemma {:induction false} CuesAreWords(t: Text, c: Claim)
    ensures c in Cues(t, 0) <==> c.what.Cue? && c == CueOf(c.what.kind, c.start) && WordAt(t, c.start, c.what.kind)
  {
    CuesFrom(t, 0, c);
  }

  /** Metric or value of the fact use the cue word. */
  ghost predicate Uses(f: Fact, kind: Kind) {
    exists i :: WordAt(f.metric + [SPACE] + f.value, i, kind)
  }

  lemma {:induction false} UsesIs(f: Fact, kind: Kind)
    ensures FactHasKind(f, kind) <==> Uses(f, kind)
  {
    var t := f.metric + [SPACE] + f.value;
    if i: nat :| WordAt(t, i, kind) {
      CuesAreWords(t, CueOf(kind, i));
    }
    if c :| c in Cues(t, 0) && c.what == Cue(kind) {
      CuesAreWords(t, c);
    }
  }

  /** Fact `f` backs a cue word of the segment `a..b`. */
  ghost predicate BacksWord(v: Vocabulary, facts: seq<Fact>, n: Text, a: nat, b: nat, carried: Option<Text>, f: Fact, kind: Kind)
    requires a <= b <= |n|
  {
    Uses(f, kind) && SubjectsStand(v, facts, n[a..b], f) && MetricStands(v, facts, n[a..b], f, Plain, carried)
  }
}
