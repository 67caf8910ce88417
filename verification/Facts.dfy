/** Verified facts and the predicates that decide whether a fact supports a claim
    (crates/agent/src/answer_contract.rs:68-77 and 866-1074).

    Word lists and alias tables are a `Vocabulary` parameter; nothing here depends on
    which words they hold. */
module Facts {
  import opened Text
  import opened Claims
  import opened Stripping

  /** A number a fact vouches for. */
  datatype Evidence = Evidence(value: real, unit: Unit)

  datatype Fact = Fact(
    id: Text, namespace: Text, source: Text, subjects: seq<Text>, metric: Text, value: Text,
    numbers: seq<Evidence>)

  datatype Vocabulary = Vocabulary(
    /** Suffixes whose removal yields an alias. */
    suffixes: seq<Text>,
    /** Words one of which a metric must contain for a count unit to prove it. */
    unitWords: char -> seq<Text>,
    dataCues: seq<Text>,
    knowledgeCues: seq<Text>,
    /** Nothing but scope labels, filler words, numbers and units is left. */
    onlyScopeAndNumber: (Text, Fact) -> bool)

  function Ascii(s: string): Text {
    seq(|s|, i requires 0 <= i < |s| => Lead(s[i]))
  }

  // ---------- numbers ----------

  function Abs(x: real): real { if x < 0.0 then -x else x }

  function Max(x: real, y: real): real { if x < y then y else x }

  /** Sixteen units in the last place, `f64::EPSILON` being `2^-52`. */
  const NOISE: real := 16.0 / 4503599627370496.0

  /** `close`, on exact values. */
  predicate Close(left: real, right: real) {
    Abs(left - right) <= NOISE * Max(Max(Abs(left), Abs(right)), 1.0)
  }

  function BaseValue(e: Evidence): real {
    match e.unit
    case Wan => e.value * 10000.0
    case Yi => e.value * 100000000.0
    case _ => e.value
  }

  /** `numbers_match`: the arms in the order of the source. */
  predicate NumbersMatch(claim: Evidence, evidence: Evidence) {
    match (claim.unit, evidence.unit)
    case (Percent, Percent) => Close(claim.value, evidence.value)
    case (Percent, Plain) => Close(claim.value / 100.0, evidence.value) || Close(claim.value, evidence.value)
    case (Plain, Percent) => Close(claim.value, evidence.value / 100.0) || Close(claim.value, evidence.value)
    case (Count(l), Count(r)) => l == r && Close(BaseValue(claim), BaseValue(evidence))
    case (Percent, Count(_)) => false
    case (Count(_), Percent) => false
    case (Multiplier(l), Multiplier(r)) => l == r && Close(claim.value, evidence.value)
    case (Date, Date) => Close(claim.value, evidence.value)
    case (Multiplier(_), _) => false
    case (_, Multiplier(_)) => false
    case (Date, _) => false
    case (_, Date) => false
    case (_, _) => Close(BaseValue(claim), BaseValue(evidence))
  }

  /** The units that scale an amount, and by how much. */
  predicate Amount(u: Unit) { u == Plain || u == Wan || u == Yi }

  function Scale(u: Unit): real {
    match u
    case Wan => 10000.0
    case Yi => 100000000.0
    case _ => 1.0
  }

  lemma {:induction false} CloseBothWays(x: real, y: real)
    ensures Close(x, y) <==> Close(y, x)
  {
    assert Abs(x - y) == Abs(y - x);
    assert Max(Abs(x), Abs(y)) == Max(Abs(y), Abs(x));
  }

  /** `high` and `low` are the same figure at two scales. */
  lemma {:induction false} ScaledApart(v: real, high: real, low: real)
    requires (high == 10000.0 * v && low == v) || (high == 100000000.0 * v && low == v)
          || (high == 100000000.0 * v && low == 10000.0 * v)
    ensures Abs(high) == Max(Abs(high), Abs(low)) && Abs(high - low) == Abs(high) - Abs(low)
    ensures Close(high, low) <==> Abs(high) - Abs(low) <= NOISE
  {
    assert Abs(high) - Abs(low) >= 0.9 * Abs(high);
    if Abs(high) > 1.0 {
      assert Max(Abs(high), 1.0) == Abs(high);
    } else {
      assert Max(Abs(high), 1.0) == 1.0;
    }
  }

  /** The same figure in two different scales, whichever side has which: the amounts never
      match, except when they vanish within the rounding noise, which is far below one. */
  lemma {:induction false} NoRawFallback(v: real, a: Unit, b: Unit)
    requires Amount(a) && Amount(b) && a != b
    ensures NumbersMatch(Evidence(v, a), Evidence(v, b)) <==> Abs(Abs(Scale(a) * v) - Abs(Scale(b) * v)) <= NOISE
  {
    var x, y := Scale(a) * v, Scale(b) * v;
    if a == Yi || (a == Wan && b == Plain) {
      ScaledApart(v, x, y);
    } else {
      ScaledApart(v, y, x);
    }
    CloseBothWays(x, y);
  }

  // ---------- labels ----------

  function StripSuffix(t: Text, suffix: Text): Option<Text> {
    if |suffix| <= |t| && t[|t| - |suffix|..] == suffix then Some(t[..|t| - |suffix|]) else None
  }

  function ShortForms(t: Text, suffixes: seq<Text>): seq<Text> {
    if suffixes == [] then []
    else
      var rest := ShortForms(t, suffixes[1..]);
      match StripSuffix(t, suffixes[0])
      case Some(short) => if CharCount(short) >= 2 then [short] + rest else rest
      case None => rest
  }

  function Aliases(v: Vocabulary, tag: Text): seq<Text> {
    [Trim(tag)] + ShortForms(Trim(tag), v.suffixes)
  }

  /** Some alias of at least two characters occurs in the segment. */
  predicate Names(v: Vocabulary, segment: Text, tag: Text) {
    exists a :: a in Aliases(v, tag) && CharCount(a) >= 2 && Contains(segment, a)
  }

  function Matched(v: Vocabulary, segment: Text, labels: seq<Text>): seq<Text> {
    if labels == [] then []
    else if Names(v, segment, labels[0]) then [labels[0]] + Matched(v, segment, labels[1..])
    else Matched(v, segment, labels[1..])
  }

  predicate Shadowed(segment: Text, tag: Text, all: seq<Text>) {
    exists longer :: longer in all && longer != tag && CharCount(longer) > CharCount(tag)
                     && Contains(segment, longer) && Contains(longer, tag)
  }

  function Unshadowed(segment: Text, labels: seq<Text>, all: seq<Text>): seq<Text> {
    if labels == [] then []
    else if Shadowed(segment, labels[0], all) then Unshadowed(segment, labels[1..], all)
    else [labels[0]] + Unshadowed(segment, labels[1..], all)
  }

  /** `mentioned`: the labels named by the segment, shadowed ones dropped. */
  function Mentioned(v: Vocabulary, segment: Text, labels: seq<Text>): seq<Text> {
    var all := Matched(v, segment, labels);
    Unshadowed(segment, all, all)
  }

  /** All labels; the source also sorts and deduplicates them, which `all`, `any` and
      `is_empty` cannot observe. */
  function SubjectLabels(facts: seq<Fact>): seq<Text> {
    if facts == [] then [] else facts[0].subjects + [facts[0].source] + SubjectLabels(facts[1..])
  }

  function MetricLabels(facts: seq<Fact>): seq<Text> {
    if facts == [] then [] else [facts[0].metric] + MetricLabels(facts[1..])
  }

  function Lower(t: Text): Text {
    seq(|t|, i requires 0 <= i < |t| =>
      if t[i].Lead? && 'A' <= t[i].ch <= 'Z' then Lead((t[i].ch as int + 32) as char) else t[i])
  }

  predicate AliasCompatible(a: Text, b: Text) {
    var a', b' := Lower(a), Lower(b);
    a' == b' || (CharCount(a') >= 2 && CharCount(b') >= 2 && (Contains(a', b') || Contains(b', a')))
  }

  predicate ScopeCompatible(v: Vocabulary, left: Text, right: Text) {
    exists a :: a in Aliases(v, left) && exists b :: b in Aliases(v, right) && AliasCompatible(a, b)
  }

  // ---------- a fact against a segment ----------

  predicate SubjectsMatch(v: Vocabulary, fact: Fact, segment: Text, mentioned: seq<Text>) {
    && (forall m :: m in mentioned ==>
          || ScopeCompatible(v, fact.source, m)
          || ScopeCompatible(v, fact.metric, m)
          || exists s :: s in fact.subjects && ScopeCompatible(v, s, m))
    && if fact.subjects != [] then forall s :: s in fact.subjects ==> Names(v, segment, s)
       else !Is(fact.namespace, 0, 'Q') || fact.namespace == Ascii("Q") || Names(v, segment, fact.source)
  }

  predicate UnitProvesMetric(v: Vocabulary, unit: Unit, metric: Text) {
    match unit
    case Count(c) => exists w :: w in v.unitWords(c) && Contains(metric, w)
    case _ => false
  }

  predicate MetricMatches(v: Vocabulary, fact: Fact, segment: Text, mentioned: seq<Text>, unit: Unit,
                          previous: Option<Text>)
  {
    && (forall m :: m in mentioned ==> ScopeCompatible(v, fact.metric, m))
    && (|| Names(v, segment, fact.metric)
        || UnitProvesMetric(v, unit, fact.metric)
        || (previous.Some? && ScopeCompatible(v, previous.value, fact.metric)
            && v.onlyScopeAndNumber(segment, fact)))
  }

  function EvidenceOf(c: Claim): Evidence
    requires c.what.Number?
  {
    Evidence(Value(c.what.raw), c.what.unit)
  }

  predicate IsDate(c: Claim) {
    c.what.Number? && c.what.unit == Date
  }

  /** `date_subject_matches`: the segment quotes a subject of the fact, and every date of
      the segment is among that subject's dates. */
  predicate DateSubjectMatches(fact: Fact, segment: Text, claims: seq<Claim>) {
    && (exists c :: c in claims && IsDate(c))
    && exists s :: s in fact.subjects && Contains(segment, s) &&
         forall c :: c in claims && IsDate(c) ==>
           exists d :: d in Numbers(s, 0) && IsDate(d) && NumbersMatch(EvidenceOf(c), EvidenceOf(d))
  }

  /** The cue kinds of `"{metric} {value}"`. */
  predicate FactHasKind(fact: Fact, kind: Kind) {
    exists c :: c in Cues(fact.metric + [SPACE] + fact.value, 0) && c.what == Cue(kind)
  }

  /** What the checker knows about one citation group's segment. */
  datatype Scene = Scene(
    segment: Text, claims: seq<Claim>, subjects: seq<Text>, metrics: seq<Text>, previous: Option<Text>)

  /** A fact supports a number: value and unit (or the quoted date), all subjects, metric. */
  predicate SupportsNumber(v: Vocabulary, fact: Fact, s: Scene, c: Claim) {
    && c.what.Number?
    && ((exists e :: e in fact.numbers && NumbersMatch(EvidenceOf(c), e))
        || (c.what.unit == Date && DateSubjectMatches(fact, s.segment, s.claims)))
    && SubjectsMatch(v, fact, s.segment, s.subjects)
    && MetricMatches(v, fact, s.segment, s.metrics, c.what.unit, s.previous)
  }

  /** A fact supports a cue word: same kind, all subjects, metric. */
  predicate SupportsCue(v: Vocabulary, fact: Fact, s: Scene, c: Claim) {
    && c.what.Cue?
    && FactHasKind(fact, c.what.kind)
    && Fits(v, fact, s)
  }

  /** A fact fits the segment's subjects and metric. */
  predicate Fits(v: Vocabulary, fact: Fact, s: Scene) {
    && SubjectsMatch(v, fact, s.segment, s.subjects)
    && MetricMatches(v, fact, s.segment, s.metrics, Plain, s.previous)
  }
}
