/** When a text is accepted, said without the checker's own predicates: where the segment of
    a citation starts, what metric is carried over to it, and which facts back what stands
    there (crates/agent/src/answer_contract.rs:315-524). */
module Grounds {
  import opened Text
  import opened References
  import opened Stripping
  import opened Numerals
  import opened Claims
  import opened Locality
  import opened Facts
  import opened Ledger
  import opened Clauses
  import opened Contract
  import opened Acceptance
  import opened Backing
  import opened Reading

  // ---------- where a segment starts ----------

  predicate StopChar(c: char) { c in "。！？!?；;\n" }

  /** A sentence stop occupies bytes `q..e`. */
  ghost predicate StopSpan(t: Text, q: nat, e: nat) {
    && q < e <= |t| && t[q].Lead? && StopChar(t[q].ch) && Boundary(t, e)
    && forall k :: q < k < e ==> t[k].Cont?
  }

  ghost predicate StopFree(t: Text, a: nat, b: nat)
    requires b <= |t|
  {
    forall k :: a <= k < b && t[k].Lead? ==> !StopChar(t[k].ch)
  }

  /** The clause that ends at `b`, and reaches back to `p` at most, starts at `a`. */
  ghost predicate ClauseOpens(t: Text, p: nat, b: nat, a: nat) {
    && p <= a <= b <= |t| && StopFree(t, a, b)
    && (a == p || exists q :: StopSpan(t, q, a))
  }

  /** The segment of a citation at `b` starts at `a`: its clause, or the clause before if
      there is nothing but white space between the stop and the citation. */
  ghost predicate SegmentOpens(t: Text, p: nat, b: nat, a: nat) {
    || (ClauseOpens(t, p, b, a) && (a == p || !Blank(t[a..b])))
    || (exists q, e :: a <= q && p < e && StopSpan(t, q, e) && ClauseOpens(t, p, q, a) && ClauseOpens(t, p, b, e) && Blank(t[e..b]))
  }

  lemma {:induction false} LastStopIs(t: Text, b: nat)
    requires b <= |t|
    ensures match LastStop(t, b)
      case None => StopFree(t, 0, b)
      case Some(q) => q < b && t[q].Lead? && StopChar(t[q].ch) && StopFree(t, q + 1, b)
  {
    if b > 0 {
      LastStopIs(t, b - 1);
    }
  }

  lemma {:induction false} StopWidth(t: Text, q: nat, e: nat)
    requires Utf8(t)
    ensures StopSpan(t, q, e) <==> q < |t| && t[q].Lead? && StopChar(t[q].ch) && e == q + Width(t[q].ch)
  {
    if q < |t| && t[q].Lead? {
      assert Whole(t, q);
    }
  }

  lemma {:induction false} StopBefore(t: Text, q: nat, e: nat, b: nat)
    requires Utf8(t) && b <= |t| && Boundary(t, b) && StopSpan(t, q, e) && q < b
    ensures e <= b
  {
  }

  /** The later of the clause's start and `p`. */
  lemma {:induction false} ClauseOpensIs(t: Text, p: nat, b: nat, a: nat)
    requires Utf8(t) && p <= b <= |t| && Boundary(t, b) && Boundary(t, p)
    ensures ClauseOpens(t, p, b, a) <==> a == Later(ClauseStart(t, b), p)
  {
    LastStopIs(t, b);
    ClauseStartEdge(t, b);
    if LastStop(t, b).Some? {
      var q := LastStop(t, b).value;
      StopWidth(t, q, ClauseStart(t, b));
      if q < p {
        StopBefore(t, q, ClauseStart(t, b), p);
      }
      OpensAfter(t, p, b, a, q, ClauseStart(t, b));
    } else {
      OpensAtStart(t, p, b, a);
    }
  }

  lemma {:induction false} OpensAfter(t: Text, p: nat, b: nat, a: nat, q: nat, e: nat)
    requires p <= b <= |t| && StopSpan(t, q, e) && StopFree(t, q + 1, b) && q < e <= b && (q < p ==> e <= p)
    ensures ClauseOpens(t, p, b, a) <==> a == Later(e, p)
  {
    if ClauseOpens(t, p, b, a) {
      StopInside(t, q, e, a, b);
      if a != p {
        var r: nat :| StopSpan(t, r, a);
        StopInside(t, r, a, q + 1, b);
      }
    }
  }

  lemma {:induction false} StopInside(t: Text, r: nat, e: nat, x: nat, b: nat)
    ensures x <= r && e <= b <= |t| && StopSpan(t, r, e) ==> !StopFree(t, x, b)
  {
  }

  lemma {:induction false} NoStopInside(t: Text, b: nat, a: nat)
    ensures a <= b <= |t| && StopFree(t, 0, b) ==> forall r: nat :: !StopSpan(t, r, a)
  {
    forall r: nat
      ensures a <= b <= |t| && StopFree(t, 0, b) ==> !StopSpan(t, r, a)
    {
      StopInside(t, r, a, 0, b);
    }
  }

  lemma {:induction false} OpensAtStart(t: Text, p: nat, b: nat, a: nat)
    requires p <= b <= |t| && StopFree(t, 0, b)
    ensures ClauseOpens(t, p, b, a) <==> a == p
  {
    NoStopInside(t, b, a);
  }

  lemma {:induction false} SegmentOpensIs(t: Text, p: nat, b: nat, a: nat)
    requires Utf8(t) && p <= b <= |t| && Boundary(t, b) && Boundary(t, p)
    ensures SegmentOpens(t, p, b, a) <==> a == SegmentStart(t, b, p)
  {
    var s := Later(ClauseStart(t, b), p);
    ClauseOpensIs(t, p, b, a);
    ClauseOpensIs(t, p, b, s);
    if s <= b && Blank(t[s..b]) && s > p {
      var q := StopAt(t, p, b, s);
      LooksBack(t, p, b, a, s, q);
    } else if SegmentOpens(t, p, b, a) && !(ClauseOpens(t, p, b, a) && (a == p || !Blank(t[a..b]))) {
      var q, e :| a <= q && p < e && StopSpan(t, q, e) && ClauseOpens(t, p, q, a) && ClauseOpens(t, p, b, e) && Blank(t[e..b]);
      ClauseOpensIs(t, p, b, e);
    }
  }

  /** The stop a clause opens after. */
  lemma {:induction false} StopAt(t: Text, p: nat, b: nat, s: nat) returns (q: nat)
    requires Utf8(t) && p < s <= b <= |t| && Boundary(t, b) && Boundary(t, p) && ClauseOpens(t, p, b, s)
    ensures p <= q && StopSpan(t, q, s) && LastStop(t, s) == Some(q)
  {
    q :| StopSpan(t, q, s);
    LastStopIs(t, s);
    if q < p {
      StopBefore(t, q, s, p);
    }
    StopInside(t, q, s, 0, s);
    var r := LastStop(t, s);
    if r.Some? {
      StopInside(t, q, s, r.value + 1, s);
    }
  }

  lemma {:induction false} LooksBack(t: Text, p: nat, b: nat, a: nat, s: nat, q: nat)
    requires Utf8(t) && p <= q < s <= b <= |t| && Boundary(t, b) && Boundary(t, p)
    requires ClauseOpens(t, p, b, s) && Blank(t[s..b]) && StopSpan(t, q, s) && s == Later(ClauseStart(t, b), p)
    ensures SegmentOpens(t, p, b, a) <==> a == Later(ClauseStart(t, q), p)
  {
    ClauseOpensIs(t, p, b, a);
    ClauseOpensIs(t, p, q, a);
    if SegmentOpens(t, p, b, a) {
      if ClauseOpens(t, p, b, a) && (a == p || !Blank(t[a..b])) {
        assert false;
      }
      var r, e :| a <= r && p < e && StopSpan(t, r, e) && ClauseOpens(t, p, r, a) && ClauseOpens(t, p, b, e) && Blank(t[e..b]);
      ClauseOpensIs(t, p, b, e);
      OneStopBefore(t, r, q, e);
    }
  }

  lemma {:induction false} OneStopBefore(t: Text, q: nat, r: nat, e: nat)
    requires StopSpan(t, q, e) && StopSpan(t, r, e)
    ensures q == r
  {
  }

  // ---------- the metric carried over ----------

  /** The facts a group names all have metric `p`. */
  ghost predicate Uniform(facts: seq<Fact>, g: Group, p: Text) {
    && (exists f :: f in facts && f.id in g.ids)
    && forall f :: f in facts && f.id in g.ids ==> f.metric == p
  }

  ghost predicate Mixed(facts: seq<Fact>, g: Group) {
    forall p :: !Uniform(facts, g, p)
  }

  /** The metric of the last group before the `k`-th whose facts have one metric, if any. */
  ghost predicate Carried(facts: seq<Fact>, groups: seq<Group>, k: nat, m: Option<Text>)
    requires k <= |groups|
  {
    match m
    case None => forall j :: 0 <= j < k ==> Mixed(facts, groups[j])
    case Some(p) => exists j :: 0 <= j < k && Uniform(facts, groups[j], p)
                                && forall l :: j < l < k ==> Mixed(facts, groups[l])
  }

  lemma {:induction false} UniformIs(facts: seq<Fact>, g: Group, p: Text)
    requires Sequential(facts)
    ensures Uniform(facts, g, p) <==>
      var cited := CitedFacts(facts, g.ids); cited != [] && forall f :: f in cited ==> f.metric == p
  {
    var cited := CitedFacts(facts, g.ids);
    forall f
      ensures f in cited <==> f in facts && f.id in g.ids
    {
      CitedExactly(facts, g.ids, f);
    }
    if cited != [] {
      assert cited[0] in cited;
    }
  }

  lemma {:induction false} NextIs(facts: seq<Fact>, g: Group, previous: Option<Text>, p: Text)
    requires Sequential(facts)
    ensures Uniform(facts, g, p) ==> NextMetric(CitedFacts(facts, g.ids), previous) == Some(p)
    ensures Mixed(facts, g) ==> NextMetric(CitedFacts(facts, g.ids), previous) == previous
  {
    UniformIs(facts, g, p);
    var cited := CitedFacts(facts, g.ids);
    if cited != [] {
      assert cited[0] in cited;
      UniformIs(facts, g, cited[0].metric);
    }
  }

  lemma {:induction false} CarriedIs(facts: seq<Fact>, groups: seq<Group>, k: nat)
    requires Sequential(facts) && k <= |groups|
    ensures Carried(facts, groups, k, MetricBefore(facts, groups, k))
  {
    if k > 0 {
      CarriedIs(facts, groups, k - 1);
      var g, before := groups[k - 1], MetricBefore(facts, groups, k - 1);
      if p :| Uniform(facts, g, p) {
        NextIs(facts, g, before, p);
        CarriedHere(facts, groups, k, p);
      } else {
        NextIs(facts, g, before, []);
        CarriedOn(facts, groups, k, before);
      }
    }
  }

  lemma {:induction false} CarriedHere(facts: seq<Fact>, groups: seq<Group>, k: nat, p: Text)
    requires 0 < k <= |groups| && Uniform(facts, groups[k - 1], p)
    ensures Carried(facts, groups, k, Some(p))
  {
  }

  lemma {:induction false} CarriedOn(facts: seq<Fact>, groups: seq<Group>, k: nat, m: Option<Text>)
    requires 0 < k <= |groups| && Mixed(facts, groups[k - 1]) && Carried(facts, groups, k - 1, m)
    ensures Carried(facts, groups, k, m)
  {
    if m.Some? {
      var j :| 0 <= j < k - 1 && Uniform(facts, groups[j], m.value) && forall l :: j < l < k - 1 ==> Mixed(facts, groups[l]);
      assert forall l :: j < l < k ==> Mixed(facts, groups[l]);
    }
  }

  lemma {:induction false} OneUniform(facts: seq<Fact>, g: Group, p: Text, q: Text)
    requires Uniform(facts, g, p) && Uniform(facts, g, q)
    ensures p == q
  {
  }

  lemma {:induction false} UniformNotMixed(facts: seq<Fact>, g: Group, p: Text)
    ensures Uniform(facts, g, p) ==> !Mixed(facts, g)
  {
  }

  lemma {:induction false} NoneOrSome(facts: seq<Fact>, groups: seq<Group>, k: nat, p: Text)
    requires k <= |groups|
    ensures !(Carried(facts, groups, k, None) && Carried(facts, groups, k, Some(p)))
  {
    forall j | 0 <= j < k
      ensures Uniform(facts, groups[j], p) ==> !Mixed(facts, groups[j])
    {
      UniformNotMixed(facts, groups[j], p);
    }
  }

  lemma {:induction false} SomeOnce(facts: seq<Fact>, groups: seq<Group>, k: nat, p: Text, q: Text)
    requires k <= |groups| && Carried(facts, groups, k, Some(p)) && Carried(facts, groups, k, Some(q))
    ensures p == q
  {
    var i :| 0 <= i < k && Uniform(facts, groups[i], p) && forall l :: i < l < k ==> Mixed(facts, groups[l]);
    var j :| 0 <= j < k && Uniform(facts, groups[j], q) && forall l :: j < l < k ==> Mixed(facts, groups[l]);
    UniformNotMixed(facts, groups[i], p);
    UniformNotMixed(facts, groups[j], q);
    OneUniform(facts, groups[j], p, q);
  }

  lemma {:induction false} CarriedOnce(facts: seq<Fact>, groups: seq<Group>, k: nat, m: Option<Text>)
    requires Sequential(facts) && k <= |groups| && Carried(facts, groups, k, m)
    ensures m == MetricBefore(facts, groups, k)
  {
    var w := MetricBefore(facts, groups, k);
    CarriedIs(facts, groups, k);
    if m.Some? {
      NoneOrSome(facts, groups, k, m.value);
    }
    if w.Some? {
      NoneOrSome(facts, groups, k, w.value);
    }
    if m.Some? && w.Some? {
      SomeOnce(facts, groups, k, m.value, w.value);
    }
  }

  // ---------- groups ----------

  /** Group `k` has its segment from byte `a` on, and metric `carried` to refer back to. */
  ghost predicate Setting(facts: seq<Fact>, n: Text, groups: seq<Group>, k: nat, a: nat, carried: Option<Text>)
    requires k < |groups|
  {
    && SegmentOpens(n, EndBefore(groups, k), groups[k].start, a) && a <= groups[k].start <= |n|
    && Carried(facts, groups, k, carried)
  }

  ghost predicate CitedBy(facts: seq<Fact>, g: Group, f: Fact) {
    f in facts && f.id in g.ids
  }

  ghost predicate FactBacks(v: Vocabulary, facts: seq<Fact>, n: Text, g: Group, a: nat, carried: Option<Text>, c: Claim)
    requires a <= g.start <= |n|
  {
    exists f :: CitedBy(facts, g, f) && Backs(v, facts, n, a, g.start, carried, f, c)
  }

  ghost predicate FactBacksWord(v: Vocabulary, facts: seq<Fact>, n: Text, g: Group, a: nat, carried: Option<Text>, kind: Kind)
    requires a <= g.start <= |n|
  {
    exists f :: CitedBy(facts, g, f) && BacksWord(v, facts, n, a, g.start, carried, f, kind)
  }

  /** Number `c` lies in the segment of group `k`, and a cited fact backs it. */
  ghost predicate NumberStands(v: Vocabulary, facts: seq<Fact>, n: Text, groups: seq<Group>, k: nat, c: Claim)
    requires k < |groups|
  {
    exists a: nat, carried ::
      && Setting(facts, n, groups, k, a, carried) && a <= c.start && c.end <= groups[k].start
      && FactBacks(v, facts, n, groups[k], a, carried, c)
  }

  ghost predicate WordStands(v: Vocabulary, facts: seq<Fact>, n: Text, groups: seq<Group>, k: nat, i: nat, kind: Kind)
    requires k < |groups|
  {
    exists a: nat, carried ::
      && Setting(facts, n, groups, k, a, carried) && a <= i && i + 6 <= groups[k].start
      && FactBacksWord(v, facts, n, groups[k], a, carried, kind)
  }

  ghost predicate From(facts: seq<Fact>, side: Text) {
    exists f :: f in facts && f.namespace == side
  }

  ghost predicate SaysOne(segment: Text, words: seq<Text>) {
    exists w :: w in words && Holds(segment, w)
  }

  ghost predicate OnlyFrom(facts: seq<Fact>, g: Group, side: Text) {
    forall f :: CitedBy(facts, g, f) ==> f.namespace == side
  }

  /** Wording that names a side of a two-sided contract cites that side alone. */
  ghost predicate SidesStand(v: Vocabulary, facts: seq<Fact>, segment: Text, g: Group) {
    From(facts, Ascii("DATA")) && From(facts, Ascii("KB")) ==>
      && (SaysOne(segment, v.dataCues) ==> OnlyFrom(facts, g, Ascii("DATA")))
      && (SaysOne(segment, v.knowledgeCues) ==> OnlyFrom(facts, g, Ascii("KB")))
  }

  ghost predicate TwoNumbers(n: Text, a: nat, b: nat) {
    exists c, d :: NumberIn(n, a, b, c) && NumberIn(n, a, b, d) && c != d
  }

  ghost predicate SameScope(facts: seq<Fact>, g: Group) {
    forall f, h :: CitedBy(facts, g, f) && CitedBy(facts, g, h) ==> ScopeKey(f) == ScopeKey(h)
  }

  ghost predicate NamesLabel(v: Vocabulary, facts: seq<Fact>, segment: Text) {
    exists metric, m :: Mentions(v, facts, metric, segment, m)
  }

  ghost predicate SomeFits(v: Vocabulary, facts: seq<Fact>, segment: Text, g: Group, carried: Option<Text>) {
    exists f :: CitedBy(facts, g, f) && SubjectsStand(v, facts, segment, f) && MetricStands(v, facts, segment, f, Plain, carried)
  }

  /** Sides agree; several numbers are of one scope; labels without a number fit a fact. */
  ghost predicate Stands(v: Vocabulary, facts: seq<Fact>, n: Text, g: Group, a: nat, carried: Option<Text>)
    requires a <= g.start <= |n|
  {
    var segment := n[a..g.start];
    && SidesStand(v, facts, segment, g)
    && (TwoNumbers(n, a, g.start) ==> SameScope(facts, g))
    && ((forall c :: !NumberIn(n, a, g.start, c)) && NamesLabel(v, facts, segment) ==> SomeFits(v, facts, segment, g, carried))
  }

  ghost predicate GroupStands(v: Vocabulary, facts: seq<Fact>, n: Text, groups: seq<Group>, k: nat)
    requires k < |groups|
  {
    exists a: nat, carried :: Setting(facts, n, groups, k, a, carried) && Stands(v, facts, n, groups[k], a, carried)
  }

  // ---------- the same as what the checker asks ----------

  lemma {:induction false} SettingIs(facts: seq<Fact>, n: Text, groups: seq<Group>, k: nat, a: nat, carried: Option<Text>)
    requires Sequential(facts) && Prepared(n, groups) && k < |groups|
    ensures Placed(n, groups, k)
    ensures Setting(facts, n, groups, k, a, carried) <==>
      a == SegmentOf(n, groups, k) && carried == MetricBefore(facts, groups, k)
  {
    SegmentIsCut(n, groups, k);
    GroupEdges(n, groups, k);
    SegmentOpensIs(n, EndBefore(groups, k), groups[k].start, a);
    CarriedIs(facts, groups, k);
    if Carried(facts, groups, k, carried) {
      CarriedOnce(facts, groups, k, carried);
    }
  }

  lemma {:induction false} GroupEdges(n: Text, groups: seq<Group>, k: nat)
    requires Prepared(n, groups) && k < |groups|
    ensures EndBefore(groups, k) <= groups[k].start <= |n|
    ensures Boundary(n, EndBefore(groups, k)) && Boundary(n, groups[k].start)
  {
    assert Placed(n, groups, k);
    if k > 0 {
      assert Placed(n, groups, k - 1);
    }
  }

  lemma {:induction false} SupportIs(v: Vocabulary, facts: seq<Fact>, n: Text, a: nat, b: nat, m: Option<Text>, f: Fact, c: Claim)
    requires a <= b <= |n| && NumberIn(n, a, b, c)
    ensures SupportsNumber(v, f, SceneAt(v, facts, n, a, b, m), c) <==> Backs(v, facts, n, a, b, m, f, c)
  {
    SubjectsStandIs(v, facts, n[a..b], f);
    if c.what.Number? {
      ValueStandsIs(f, n, a, b, c);
      MetricStandsIs(v, facts, n[a..b], f, c.what.unit, m);
    }
  }

  function SceneAt(v: Vocabulary, facts: seq<Fact>, n: Text, a: nat, b: nat, m: Option<Text>): Scene
    requires a <= b <= |n|
  {
    Scene(n[a..b], Within(Numbers(n, 0), a, b),
          Mentioned(v, n[a..b], SubjectLabels(facts)), Mentioned(v, n[a..b], MetricLabels(facts)), m)
  }

  lemma {:induction false} SceneIs(v: Vocabulary, facts: seq<Fact>, n: Text, groups: seq<Group>, k: nat, m: Option<Text>)
    requires Prepared(n, groups) && k < |groups|
    ensures Placed(n, groups, k) && SegmentOf(n, groups, k) <= groups[k].start <= |n|
    ensures SceneOf(v, facts, n, groups, k, m) == SceneAt(v, facts, n, SegmentOf(n, groups, k), groups[k].start, m)
  {
    SegmentIsCut(n, groups, k);
  }

  lemma {:induction false} FitsIs(v: Vocabulary, facts: seq<Fact>, n: Text, a: nat, b: nat, m: Option<Text>, f: Fact)
    requires a <= b <= |n|
    ensures Fits(v, f, SceneAt(v, facts, n, a, b, m)) <==>
      SubjectsStand(v, facts, n[a..b], f) && MetricStands(v, facts, n[a..b], f, Plain, m)
  {
    SubjectsStandIs(v, facts, n[a..b], f);
    MetricStandsIs(v, facts, n[a..b], f, Plain, m);
  }

  lemma {:induction false} WordSupportIs(v: Vocabulary, facts: seq<Fact>, n: Text, a: nat, b: nat, m: Option<Text>, f: Fact,
                                         kind: Kind, i: nat)
    requires a <= b <= |n|
    ensures SupportsCue(v, f, SceneAt(v, facts, n, a, b, m), CueOf(kind, i)) <==> BacksWord(v, facts, n, a, b, m, f, kind)
  {
    UsesIs(f, kind);
    FitsIs(v, facts, n, a, b, m, f);
  }

  lemma {:induction false} FactBacksIs(v: Vocabulary, facts: seq<Fact>, n: Text, g: Group, a: nat, m: Option<Text>, c: Claim)
    requires a <= g.start <= |n| && NumberIn(n, a, g.start, c)
    ensures FactBacks(v, facts, n, g, a, m, c) <==>
      exists f :: f in facts && f.id in g.ids && SupportsNumber(v, f, SceneAt(v, facts, n, a, g.start, m), c)
  {
    forall f
      ensures CitedBy(facts, g, f) <==> f in facts && f.id in g.ids
      ensures SupportsNumber(v, f, SceneAt(v, facts, n, a, g.start, m), c) <==> Backs(v, facts, n, a, g.start, m, f, c)
    {
      SupportIs(v, facts, n, a, g.start, m, f, c);
    }
  }

  lemma {:induction false} FactBacksWordIs(v: Vocabulary, facts: seq<Fact>, n: Text, g: Group, a: nat, m: Option<Text>,
                                           i: nat, kind: Kind)
    requires a <= g.start <= |n|
    ensures FactBacksWord(v, facts, n, g, a, m, kind) <==>
      exists f :: f in facts && f.id in g.ids && SupportsCue(v, f, SceneAt(v, facts, n, a, g.start, m), CueOf(kind, i))
  {
    forall f
      ensures CitedBy(facts, g, f) <==> f in facts && f.id in g.ids
      ensures SupportsCue(v, f, SceneAt(v, facts, n, a, g.start, m), CueOf(kind, i)) <==> BacksWord(v, facts, n, a, g.start, m, f, kind)
    {
      WordSupportIs(v, facts, n, a, g.start, m, f, kind, i);
    }
  }

  lemma {:induction false} NumberStandsIs(v: Vocabulary, facts: seq<Fact>, n: Text, groups: seq<Group>, k: nat, c: Claim)
    requires Sequential(facts) && Prepared(n, groups) && k < |groups| && c in Numbers(n, 0)
    ensures NumberCited(v, facts, n, groups, k, c) <==> NumberStands(v, facts, n, groups, k, c)
  {
    var m := MetricBefore(facts, groups, k);
    SceneIs(v, facts, n, groups, k, m);
    var a := SegmentOf(n, groups, k);
    if a <= c.start && c.end <= groups[k].start {
      FactBacksIs(v, facts, n, groups[k], a, m, c);
    }
    NumberStandsAt(v, facts, n, groups, k, c, a, m);
  }

  lemma {:induction false} NumberStandsAt(v: Vocabulary, facts: seq<Fact>, n: Text, groups: seq<Group>, k: nat, c: Claim,
                                          a: nat, m: Option<Text>)
    requires Sequential(facts) && Prepared(n, groups) && k < |groups| && Placed(n, groups, k)
    requires a == SegmentOf(n, groups, k) && m == MetricBefore(facts, groups, k) && a <= groups[k].start <= |n|
    ensures NumberStands(v, facts, n, groups, k, c) <==>
      a <= c.start && c.end <= groups[k].start && FactBacks(v, facts, n, groups[k], a, m, c)
  {
    SettingIs(facts, n, groups, k, a, m);
    if NumberStands(v, facts, n, groups, k, c) {
      var a': nat, m' :| Setting(facts, n, groups, k, a', m') && a' <= c.start && c.end <= groups[k].start
        && FactBacks(v, facts, n, groups[k], a', m', c);
      SettingIs(facts, n, groups, k, a', m');
    }
  }

  lemma {:induction false} WordStandsIs(v: Vocabulary, facts: seq<Fact>, n: Text, groups: seq<Group>, k: nat, i: nat, kind: Kind)
    requires Sequential(facts) && Prepared(n, groups) && k < |groups|
    ensures CueCited(v, facts, n, groups, k, CueOf(kind, i)) <==> WordStands(v, facts, n, groups, k, i, kind)
  {
    var m := MetricBefore(facts, groups, k);
    SceneIs(v, facts, n, groups, k, m);
    var a := SegmentOf(n, groups, k);
    FactBacksWordIs(v, facts, n, groups[k], a, m, i, kind);
    WordStandsAt(v, facts, n, groups, k, i, kind, a, m);
  }

  lemma {:induction false} WordStandsAt(v: Vocabulary, facts: seq<Fact>, n: Text, groups: seq<Group>, k: nat, i: nat, kind: Kind,
                                        a: nat, m: Option<Text>)
    requires Sequential(facts) && Prepared(n, groups) && k < |groups| && Placed(n, groups, k)
    requires a == SegmentOf(n, groups, k) && m == MetricBefore(facts, groups, k) && a <= groups[k].start <= |n|
    ensures WordStands(v, facts, n, groups, k, i, kind) <==>
      a <= i && i + 6 <= groups[k].start && FactBacksWord(v, facts, n, groups[k], a, m, kind)
  {
    SettingIs(facts, n, groups, k, a, m);
    if WordStands(v, facts, n, groups, k, i, kind) {
      var a': nat, m' :| Setting(facts, n, groups, k, a', m') && a' <= i && i + 6 <= groups[k].start
        && FactBacksWord(v, facts, n, groups[k], a', m', kind);
      SettingIs(facts, n, groups, k, a', m');
    }
  }

  lemma {:induction false} TwoNumbersIs(n: Text, a: nat, b: nat)
    ensures TwoNumbers(n, a, b) <==> |Within(Numbers(n, 0), a, b)| > 1
  {
    var w := Within(Numbers(n, 0), a, b);
    forall c
      ensures c in w <==> NumberIn(n, a, b, c)
    {
      WithinMembers(Numbers(n, 0), a, b, c);
    }
    NumbersFrom(n, 0);
    NumbersFollow(n, 0);
    WithinDistinct(Numbers(n, 0), 0, a, b);
    if |w| > 1 {
      assert w[0] in w && w[1] in w;
    }
  }

  /** Each claim starts where the one before has ended, or later. */
  ghost predicate Following(cs: seq<Claim>) {
    cs == [] || (cs[0].start < cs[0].end && StartFrom(cs[1..], cs[0].end) && Following(cs[1..]))
  }

  lemma {:induction false} NumbersFollow(t: Text, i: nat)
    requires i <= |t|
    ensures Following(Numbers(t, i))
    decreases |t| - i
  {
    if i < |t| {
      if TokenStart(t, i) {
        var d := DigitsStart(t, i);
        var e := NumberEnd(t, d, false);
        NumbersFollow(t, e);
        NumbersFrom(t, e);
        NumbersToken(t, i);
        FollowPrepend(ClaimAt(t, i, d, e), i, e, Numbers(t, e));
      } else {
        NumbersFollow(t, i + 1);
      }
    }
  }

  lemma {:induction false} FollowPrepend(what: Option<What>, i: nat, e: nat, rest: seq<Claim>)
    requires i < e && StartFrom(rest, e) && Following(rest)
    ensures Following(Prepend(what, i, e, rest))
  {
    if what.Some? {
      assert Prepend(what, i, e, rest)[1..] == rest;
    }
  }

  lemma {:induction false} FromMember(cs: seq<Claim>, lo: nat, c: Claim)
    requires StartFrom(cs, lo) && c in cs
    ensures lo <= c.start
  {
    if c != cs[0] {
      FromMember(cs[1..], lo, c);
    }
  }

  lemma {:induction false} WithinDistinct(cs: seq<Claim>, lo: nat, a: nat, b: nat)
    requires Following(cs)
    ensures var w := Within(cs, a, b); |w| > 1 ==> w[0] != w[1]
  {
    if cs != [] {
      WithinDistinct(cs[1..], lo, a, b);
      var w, rest := Within(cs, a, b), Within(cs[1..], a, b);
      if a <= cs[0].start && cs[0].end <= b && rest != [] {
        assert w[1] == rest[0];
        WithinMembers(cs[1..], a, b, rest[0]);
        FromMember(cs[1..], cs[0].end, rest[0]);
      }
    }
  }

  // ---------- the fit of a group ----------

  lemma {:induction false} SidesStandIs(v: Vocabulary, facts: seq<Fact>, segment: Text, g: Group)
    requires Sequential(facts)
    ensures Worded(v, facts, CitedFacts(facts, g.ids), segment) <==> SidesStand(v, facts, segment, g)
  {
    forall f
      ensures f in CitedFacts(facts, g.ids) <==> CitedBy(facts, g, f)
    {
      CitedExactly(facts, g.ids, f);
    }
    SaysIs(segment, v.dataCues);
    SaysIs(segment, v.knowledgeCues);
  }

  lemma {:induction false} SaysIs(segment: Text, words: seq<Text>)
    ensures Says(segment, words) <==> SaysOne(segment, words)
  {
    forall w
      ensures Contains(segment, w) <==> Holds(segment, w)
    {
      HoldsIs(segment, w);
    }
  }

  lemma {:induction false} SameScopeIs(facts: seq<Fact>, g: Group)
    requires Sequential(facts)
    ensures OneScope(CitedFacts(facts, g.ids)) <==> SameScope(facts, g)
  {
    forall f
      ensures f in CitedFacts(facts, g.ids) <==> CitedBy(facts, g, f)
    {
      CitedExactly(facts, g.ids, f);
    }
  }

  lemma {:induction false} NamesLabelIs(v: Vocabulary, facts: seq<Fact>, segment: Text)
    ensures (Mentioned(v, segment, SubjectLabels(facts)) != [] || Mentioned(v, segment, MetricLabels(facts)) != [])
       <==> NamesLabel(v, facts, segment)
  {
    assert Labels(facts, false) == SubjectLabels(facts) && Labels(facts, true) == MetricLabels(facts);
    forall metric, m
      ensures m in Mentioned(v, segment, Labels(facts, metric)) <==> Mentions(v, facts, metric, segment, m)
    {
      MentionsAre(v, facts, metric, segment, m);
    }
    if Mentioned(v, segment, SubjectLabels(facts)) != [] {
      assert Mentioned(v, segment, SubjectLabels(facts))[0] in Mentioned(v, segment, Labels(facts, false));
    }
    if Mentioned(v, segment, MetricLabels(facts)) != [] {
      assert Mentioned(v, segment, MetricLabels(facts))[0] in Mentioned(v, segment, Labels(facts, true));
    }
  }

  lemma {:induction false} SomeFitsIs(v: Vocabulary, facts: seq<Fact>, n: Text, g: Group, a: nat, m: Option<Text>)
    requires Sequential(facts) && a <= g.start <= |n|
    ensures (exists f :: f in CitedFacts(facts, g.ids) && Fits(v, f, SceneAt(v, facts, n, a, g.start, m)))
       <==> SomeFits(v, facts, n[a..g.start], g, m)
  {
    forall f
      ensures f in CitedFacts(facts, g.ids) <==> CitedBy(facts, g, f)
      ensures Fits(v, f, SceneAt(v, facts, n, a, g.start, m)) <==>
        SubjectsStand(v, facts, n[a..g.start], f) && MetricStands(v, facts, n[a..g.start], f, Plain, m)
    {
      CitedExactly(facts, g.ids, f);
      FitsIs(v, facts, n, a, g.start, m, f);
    }
  }

  lemma {:induction false} NoNumberIs(n: Text, a: nat, b: nat)
    ensures Within(Numbers(n, 0), a, b) == [] <==> forall c :: !NumberIn(n, a, b, c)
  {
    var w := Within(Numbers(n, 0), a, b);
    forall c
      ensures c in w <==> NumberIn(n, a, b, c)
    {
      WithinMembers(Numbers(n, 0), a, b, c);
    }
    if w != [] {
      assert w[0] in w;
    }
  }

  lemma {:induction false} StandsIs(v: Vocabulary, facts: seq<Fact>, n: Text, g: Group, a: nat, m: Option<Text>)
    requires Sequential(facts) && a <= g.start <= |n|
    ensures GroupFits(v, facts, CitedFacts(facts, g.ids), SceneAt(v, facts, n, a, g.start, m)) <==> Stands(v, facts, n, g, a, m)
  {
    SidesStandIs(v, facts, n[a..g.start], g);
    TwoNumbersIs(n, a, g.start);
    SameScopeIs(facts, g);
    NoNumberIs(n, a, g.start);
    NamesLabelIs(v, facts, n[a..g.start]);
    SomeFitsIs(v, facts, n, g, a, m);
  }

  lemma {:induction false} GroupStandsIs(v: Vocabulary, facts: seq<Fact>, n: Text, groups: seq<Group>, k: nat)
    requires Sequential(facts) && Prepared(n, groups) && k < |groups|
    ensures GroupFits(v, facts, CitedFacts(facts, groups[k].ids), SceneOf(v, facts, n, groups, k, MetricBefore(facts, groups, k)))
       <==> GroupStands(v, facts, n, groups, k)
  {
    var m := MetricBefore(facts, groups, k);
    SceneIs(v, facts, n, groups, k, m);
    var a := SegmentOf(n, groups, k);
    StandsIs(v, facts, n, groups[k], a, m);
    GroupStandsAt(v, facts, n, groups, k, a, m);
  }

  lemma {:induction false} GroupStandsAt(v: Vocabulary, facts: seq<Fact>, n: Text, groups: seq<Group>, k: nat, a: nat, m: Option<Text>)
    requires Sequential(facts) && Prepared(n, groups) && k < |groups| && Placed(n, groups, k)
    requires a == SegmentOf(n, groups, k) && m == MetricBefore(facts, groups, k) && a <= groups[k].start <= |n|
    ensures GroupStands(v, facts, n, groups, k) <==> Stands(v, facts, n, groups[k], a, m)
  {
    SettingIs(facts, n, groups, k, a, m);
    if GroupStands(v, facts, n, groups, k) {
      var a': nat, m' :| Setting(facts, n, groups, k, a', m') && Stands(v, facts, n, groups[k], a', m');
      SettingIs(facts, n, groups, k, a', m');
    }
  }

  // ---------- acceptance ----------

  ghost predicate AllNamed(facts: seq<Fact>, toks: seq<Token>) {
    forall tok :: tok in toks ==> exists f :: f in facts && f.id == tok.id
  }

  ghost predicate AllGroupsStand(v: Vocabulary, facts: seq<Fact>, n: Text, groups: seq<Group>) {
    forall k :: 0 <= k < |groups| ==> GroupStands(v, facts, n, groups, k)
  }

  ghost predicate AllNumbersStand(v: Vocabulary, facts: seq<Fact>, n: Text, groups: seq<Group>) {
    forall c :: c in Numbers(n, 0) ==> exists k :: 0 <= k < |groups| && NumberStands(v, facts, n, groups, k, c)
  }

  ghost predicate AllWordsStand(v: Vocabulary, facts: seq<Fact>, n: Text, groups: seq<Group>) {
    forall i, kind :: WordAt(n, i, kind) ==> exists k :: 0 <= k < |groups| && WordStands(v, facts, n, groups, k, i, kind)
  }

  lemma {:induction false} KnownIs(facts: seq<Fact>, toks: seq<Token>)
    ensures Known(facts, toks) <==> AllNamed(facts, toks)
  {
    if Known(facts, toks) {
      forall tok | tok in toks
        ensures exists f :: f in facts && f.id == tok.id
      {
        var i :| 0 <= i < |toks| && toks[i] == tok;
        assert FindFact(facts, toks[i].id).value in facts;
      }
    }
  }

  lemma {:induction false} NumbersStand(v: Vocabulary, facts: seq<Fact>, n: Text, groups: seq<Group>)
    requires Sequential(facts) && Prepared(n, groups)
    ensures AllNumbersCited(v, facts, n, groups) <==> AllNumbersStand(v, facts, n, groups)
  {
    forall k: nat, c | k < |groups| && c in Numbers(n, 0)
      ensures NumberCited(v, facts, n, groups, k, c) <==> NumberStands(v, facts, n, groups, k, c)
    {
      NumberStandsIs(v, facts, n, groups, k, c);
    }
  }

  ghost predicate WordCited(v: Vocabulary, facts: seq<Fact>, n: Text, groups: seq<Group>, c: Claim)
    requires Prepared(n, groups)
  {
    exists k :: 0 <= k < |groups| && CueCited(v, facts, n, groups, k, c)
  }

  ghost predicate WordBacked(v: Vocabulary, facts: seq<Fact>, n: Text, groups: seq<Group>, i: nat, kind: Kind) {
    exists k :: 0 <= k < |groups| && WordStands(v, facts, n, groups, k, i, kind)
  }

  lemma {:induction false} WordBackedIs(v: Vocabulary, facts: seq<Fact>, n: Text, groups: seq<Group>, i: nat, kind: Kind)
    requires Sequential(facts) && Prepared(n, groups)
    ensures WordCited(v, facts, n, groups, CueOf(kind, i)) <==> WordBacked(v, facts, n, groups, i, kind)
  {
    forall k: nat | k < |groups|
      ensures CueCited(v, facts, n, groups, k, CueOf(kind, i)) <==> WordStands(v, facts, n, groups, k, i, kind)
    {
      WordStandsIs(v, facts, n, groups, k, i, kind);
    }
  }

  lemma {:induction false} WordsStand(v: Vocabulary, facts: seq<Fact>, n: Text, groups: seq<Group>)
    requires Sequential(facts) && Prepared(n, groups)
    ensures AllCuesCited(v, facts, n, groups) <==> AllWordsStand(v, facts, n, groups)
  {
    if AllCuesCited(v, facts, n, groups) {
      forall i, kind | WordAt(n, i, kind)
        ensures WordBacked(v, facts, n, groups, i, kind)
      {
        CuesAreWords(n, CueOf(kind, i));
        assert WordCited(v, facts, n, groups, CueOf(kind, i));
        WordBackedIs(v, facts, n, groups, i, kind);
      }
    }
    if AllWordsStand(v, facts, n, groups) {
      forall c | c in Cues(n, 0)
        ensures WordCited(v, facts, n, groups, c)
      {
        CuesAreWords(n, c);
        assert WordBacked(v, facts, n, groups, c.start, c.what.kind);
        WordBackedIs(v, facts, n, groups, c.start, c.what.kind);
      }
    }
  }

  lemma {:induction false} GroupsStand(v: Vocabulary, facts: seq<Fact>, n: Text, groups: seq<Group>)
    requires Sequential(facts) && Prepared(n, groups)
    ensures AllFit(v, facts, n, groups) <==> AllGroupsStand(v, facts, n, groups)
  {
    forall k: nat | k < |groups|
      ensures GroupFits(v, facts, CitedFacts(facts, groups[k].ids), SceneOf(v, facts, n, groups, k, MetricBefore(facts, groups, k)))
         <==> GroupStands(v, facts, n, groups, k)
    {
      GroupStandsIs(v, facts, n, groups, k);
    }
  }

  /** Acceptance, in full. A text is accepted exactly if every id in brackets is a fact's;
      every numeral can be read; sides, scopes and labels of every group stand; and every
      number and every cue word of the text lies in the segment of a group with a cited fact
      whose own numbers or words, subjects and metric back it there. */
  lemma {:induction false} AcceptsOnGrounds(v: Vocabulary, facts: seq<Fact>, text: Text, keep: Keep, cn: Worth)
    requires Utf8(text) && Sequential(facts)
    ensures var n, groups := Readable(text, keep, cn), GroupsIn(text);
      Accepts(v, facts, text, keep, cn) <==>
        && AllNamed(facts, Tokens(text, 0))
        && AllWorth(MaskOf(text, Tokens(text, 0)), keep, cn)
        && AllGroupsStand(v, facts, n, groups)
        && AllNumbersStand(v, facts, n, groups)
        && AllWordsStand(v, facts, n, groups)
  {
    var n, groups := Readable(text, keep, cn), GroupsIn(text);
    AcceptsByCitation(v, facts, text, keep, cn);
    KnownIs(facts, Tokens(text, 0));
    GroupsStand(v, facts, n, groups);
    NumbersStand(v, facts, n, groups);
    WordsStand(v, facts, n, groups);
  }

  // ---------- the digits shown ----------

  /** Byte `i` is part of a number that a cited fact backs, or of one passed over. */
  ghost predicate DigitStands(v: Vocabulary, facts: seq<Fact>, n: Text, groups: seq<Group>, i: nat) {
    || (exists c, k :: c in Numbers(n, 0) && c.start <= i < c.end && 0 <= k < |groups| && NumberStands(v, facts, n, groups, k, c))
    || InSkipped(n, i)
  }

  lemma {:induction false} DigitStandsAt(v: Vocabulary, facts: seq<Fact>, n: Text, groups: seq<Group>, i: nat)
    requires Utf8(n) && AllNumbersStand(v, facts, n, groups) && i < |n| && DigitAt(n, i)
    ensures DigitStands(v, facts, n, groups, i)
  {
    EveryDigitRead(n, i);
    if !InSkipped(n, i) {
      var c :| c in Numbers(n, 0) && c.start <= i < c.end && ReadSomehow(n, c);
      var k :| 0 <= k < |groups| && NumberStands(v, facts, n, groups, k, c);
    }
  }

  /** Every digit shown: the digits of an accepted text's display are, in order, digits of
      the text outside its citations, and each is part of a number that a cited fact backs,
      or of a list marker or a name. */
  lemma {:induction false} ShownDigitsStand(v: Vocabulary, facts: seq<Fact>, text: Text, keep: Keep, cn: Worth)
    returns (at: seq<nat>)
    requires Utf8(text) && Sequential(facts) && Accepts(v, facts, text, keep, cn)
    ensures Spread(Tokens(text, 0), 0, |text|)
    ensures Acceptance.Stand(text, DigitsOf(Tidy(Removed(text, Tokens(text, 0), 0))), at, 0, |text|)
    ensures forall k :: 0 <= k < |at| ==> DigitStands(v, facts, Readable(text, keep, cn), GroupsIn(text), at[k])
  {
    var n, groups := Readable(text, keep, cn), GroupsIn(text);
    AcceptsOnGrounds(v, facts, text, keep, cn);
    ReadableUtf8(text, keep, cn);
    at := ShownDigits(text);
    forall k | 0 <= k < |at|
      ensures DigitStands(v, facts, n, groups, at[k])
    {
      DigitStays(text, keep, cn, at[k]);
      DigitStandsAt(v, facts, n, groups, at[k]);
    }
  }

  // ---------- scopes ----------

  ghost predicate NoneOf(t: Text, b: Byte) {
    forall k :: 0 <= k < |t| ==> t[k] != b
  }

  /** No separator in the fact's labels, and no empty subject. */
  ghost predicate PlainLabels(f: Fact) {
    && NoneOf(f.namespace, Lead('|')) && NoneOf(f.metric, Lead('|'))
    && PlainParts(f.subjects)
  }

  ghost predicate PlainParts(parts: seq<Text>) {
    forall s :: s in parts ==> s != [] && NoneOf(s, Lead('|')) && NoneOf(s, Lead('/'))
  }

  lemma {:induction false} PlainRest(parts: seq<Text>)
    requires PlainParts(parts) && parts != []
    ensures parts[0] in parts && PlainParts(parts[1..])
  {
    forall s | s in parts[1..]
      ensures s in parts
    {
    }
  }

  lemma {:induction false} StartAt(a: Text, r: Text, s: Text, k: nat)
    requires s == a + r
    ensures k < |a| ==> s[k] == a[k]
  {
  }

  lemma {:induction false} CutOnce(a: Text, x: Text, b: Text, y: Text, sep: Byte)
    requires NoneOf(a, sep) && NoneOf(b, sep) && a + [sep] + x == b + [sep] + y
    ensures a == b && x == y
  {
    var s := a + [sep] + x;
    assert s[|a|] == sep && s[|b|] == sep;
    StartAt(a, [sep] + x, s, |b|);
    StartAt(b, [sep] + y, s, |a|);
    assert a == s[..|a|] && x == s[|a| + 1..];
  }

  lemma {:induction false} JoinedPlain(parts: seq<Text>)
    requires PlainParts(parts)
    ensures NoneOf(Joined(parts), Lead('|')) && (parts != [] ==> Joined(parts) != [])
    ensures |parts| == 1 ==> NoneOf(Joined(parts), Lead('/'))
  {
    if |parts| > 1 {
      PlainRest(parts);
      JoinedPlain(parts[1..]);
      assert Joined(parts) == parts[0] + [Lead('/')] + Joined(parts[1..]);
    }
  }

  lemma {:induction false} JoinedExact(a: seq<Text>, b: seq<Text>)
    requires PlainParts(a) && PlainParts(b)
    requires Joined(a) == Joined(b)
    ensures a == b
  {
    JoinedPlain(a);
    JoinedPlain(b);
    JoinedSlash(a);
    JoinedSlash(b);
    if |a| > 1 && |b| > 1 {
      assert Joined(a) == a[0] + [Lead('/')] + Joined(a[1..]) && Joined(b) == b[0] + [Lead('/')] + Joined(b[1..]);
      CutOnce(a[0], Joined(a[1..]), b[0], Joined(b[1..]), Lead('/'));
      PlainRest(a);
      PlainRest(b);
      JoinedExact(a[1..], b[1..]);
      assert a == [a[0]] + a[1..] && b == [b[0]] + b[1..];
    }
  }

  lemma {:induction false} JoinedSlash(parts: seq<Text>)
    ensures |parts| > 1 ==> !NoneOf(Joined(parts), Lead('/'))
  {
    if |parts| > 1 {
      assert Joined(parts) == parts[0] + [Lead('/')] + Joined(parts[1..]);
      assert Joined(parts)[|parts[0]|] == Lead('/');
    }
  }

  /** Two facts share a scope exactly if namespace, subjects and metric are the same. */
  lemma {:induction false} ScopeKeyExact(f: Fact, g: Fact)
    requires PlainLabels(f) && PlainLabels(g)
    ensures ScopeKey(f) == ScopeKey(g) <==> f.namespace == g.namespace && f.subjects == g.subjects && f.metric == g.metric
  {
    if ScopeKey(f) == ScopeKey(g) {
      var x, y := Joined(f.subjects) + [Lead('|')] + f.metric, Joined(g.subjects) + [Lead('|')] + g.metric;
      assert ScopeKey(f) == f.namespace + [Lead('|')] + x && ScopeKey(g) == g.namespace + [Lead('|')] + y;
      CutOnce(f.namespace, x, g.namespace, y, Lead('|'));
      JoinedPlain(f.subjects);
      JoinedPlain(g.subjects);
      CutOnce(Joined(f.subjects), f.metric, Joined(g.subjects), g.metric, Lead('|'));
      JoinedExact(f.subjects, g.subjects);
    }
  }
}
