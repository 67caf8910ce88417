/** How facts get their ids, and how a result table is split into atomic facts
    (crates/agent/src/answer_contract.rs:121-179 and 231-253). */
module Ledger {
  import opened Text
  import opened References
  import opened Numerals
  import opened Claims
  import opened Stripping
  import opened Facts

  const MAX_FACTS: nat := 128

  // ---------- ids ----------

  /** `{ordinal:03}`. */
  function Padded(n: nat): Text {
    if n < 10 then [DigitByte(0), DigitByte(0)] + Decimal(n)
    else if n < 100 then [DigitByte(0)] + Decimal(n)
    else Decimal(n)
  }

  /** `{namespace}:F{ordinal:03}`. */
  function IdOf(namespace: Text, ordinal: nat): Text {
    namespace + [Lead(':'), Lead('F')] + Padded(ordinal)
  }

  function CountIn(facts: seq<Fact>, namespace: Text): nat {
    if facts == [] then 0
    else CountIn(facts[..|facts| - 1], namespace) + (if facts[|facts| - 1].namespace == namespace then 1 else 0)
  }

  /** A fact before it has an id. */
  datatype Draft = Draft(
    namespace: Text, source: Text, subjects: seq<Text>, metric: Text, value: Text, numbers: seq<Evidence>)

  function Numbered(facts: seq<Fact>, d: Draft): Fact {
    Fact(IdOf(d.namespace, CountIn(facts, d.namespace) + 1), d.namespace, d.source, d.subjects, d.metric,
         d.value, d.numbers)
  }

  function AddAll(facts: seq<Fact>, drafts: seq<Draft>): (r: seq<Fact>)
    ensures |r| == |facts| + |drafts|
    decreases |drafts|
  {
    if drafts == [] then facts
    else
      var before := AddAll(facts, drafts[..|drafts| - 1]);
      before + [Numbered(before, drafts[|drafts| - 1])]
  }

  /** Facts numbered one after another, each within its namespace. */
  ghost predicate Sequential(facts: seq<Fact>) {
    facts == [] ||
    (var n := |facts| - 1;
     && Sequential(facts[..n])
     && facts[n].id == IdOf(facts[n].namespace, CountIn(facts[..n], facts[n].namespace) + 1))
  }

  lemma {:induction false} AddAllSequential(facts: seq<Fact>, drafts: seq<Draft>)
    requires Sequential(facts)
    ensures Sequential(AddAll(facts, drafts))
    decreases |drafts|
  {
    if drafts != [] {
      var n := |drafts| - 1;
      AddAllSequential(facts, drafts[..n]);
      OneMore(AddAll(facts, drafts[..n]), drafts[n]);
    }
  }

  lemma {:induction false} OneMore(facts: seq<Fact>, d: Draft)
    requires Sequential(facts)
    ensures Sequential(facts + [Numbered(facts, d)])
  {
    assert (facts + [Numbered(facts, d)])[..|facts|] == facts;
  }

  lemma {:induction false} MantissaAppend(t: Text, d: nat, acc: nat)
    requires d < 10
    ensures Mantissa(t + [DigitByte(d)], acc) == 10 * Mantissa(t, acc) + d
    decreases |t|
  {
    var u := t + [DigitByte(d)];
    if t == [] {
      assert u[1..] == [];
    } else {
      assert u[1..] == t[1..] + [DigitByte(d)];
      if t[0].Lead? && IsDigit(t[0].ch) {
        MantissaAppend(t[1..], d, 10 * acc + (t[0].ch as int - '0' as int));
      } else {
        MantissaAppend(t[1..], d, acc);
      }
    }
  }

  /** A decimal reads back as the number it was printed from. */
  lemma {:induction false} DecimalReads(n: nat)
    ensures Mantissa(Decimal(n), 0) == n
  {
    if n < 10 {
      assert Decimal(n)[1..] == [];
    } else {
      DecimalReads(n / 10);
      MantissaAppend(Decimal(n / 10), n % 10, 0);
    }
  }

  lemma {:induction false} MantissaZero(t: Text)
    ensures Mantissa([DigitByte(0)] + t, 0) == Mantissa(t, 0)
  {
    assert ([DigitByte(0)] + t)[1..] == t;
  }

  lemma {:induction false} PaddedReads(n: nat)
    ensures Mantissa(Padded(n), 0) == n && Digits(Padded(n))
  {
    DecimalReads(n);
    DecimalDigits(n);
    MantissaZero(Decimal(n));
    MantissaZero([DigitByte(0)] + Decimal(n));
    assert [DigitByte(0), DigitByte(0)] + Decimal(n) == [DigitByte(0)] + ([DigitByte(0)] + Decimal(n));
  }

  lemma {:induction false} IdShape(ns: Text, m: nat)
    ensures |IdOf(ns, m)| == |ns| + 2 + |Padded(m)|
    ensures IdOf(ns, m)[..|ns|] == ns && IdOf(ns, m)[|ns| + 2..] == Padded(m)
    ensures IdOf(ns, m)[|ns| + 1] == Lead('F')
    ensures forall k :: |ns| + 2 <= k < |IdOf(ns, m)| ==> IdOf(ns, m)[k] != Lead('F')
  {
    PaddedReads(m);
  }

  /** An id determines its namespace and its ordinal: its last `F` stands before the digits. */
  lemma {:induction false} IdInjective(ns: Text, m: nat, ns': Text, m': nat)
    requires IdOf(ns, m) == IdOf(ns', m')
    ensures ns == ns' && m == m'
  {
    IdShape(ns, m);
    IdShape(ns', m');
    PaddedReads(m);
    PaddedReads(m');
    assert |ns| == |ns'|;
  }

  lemma {:induction false} SequentialPrefix(facts: seq<Fact>, k: nat)
    requires Sequential(facts) && k <= |facts|
    ensures Sequential(facts[..k])
  {
    if k < |facts| {
      SequentialPrefix(facts[..|facts| - 1], k);
      assert facts[..|facts| - 1][..k] == facts[..k];
    } else {
      assert facts[..k] == facts;
    }
  }

  lemma {:induction false} CountGrows(facts: seq<Fact>, namespace: Text, i: nat, j: nat)
    requires i < j <= |facts| && facts[i].namespace == namespace
    ensures CountIn(facts[..j], namespace) > CountIn(facts[..i], namespace)
  {
    assert facts[..j][..j - 1] == facts[..j - 1];
    if i < j - 1 {
      CountGrows(facts, namespace, i, j - 1);
    }
  }

  /** No two facts of a contract share an id, so a citation names exactly one fact. */
  lemma {:induction false} IdsUnique(facts: seq<Fact>, i: nat, j: nat)
    requires Sequential(facts) && i < j < |facts|
    ensures facts[i].id != facts[j].id
  {
    IdAt(facts, i);
    IdAt(facts, j);
    if facts[i].id == facts[j].id {
      IdInjective(facts[i].namespace, CountIn(facts[..i], facts[i].namespace) + 1,
                  facts[j].namespace, CountIn(facts[..j], facts[j].namespace) + 1);
      CountGrows(facts, facts[i].namespace, i, j);
    }
  }

  lemma {:induction false} IdAt(facts: seq<Fact>, i: nat)
    requires Sequential(facts) && i < |facts|
    ensures facts[i].id == IdOf(facts[i].namespace, CountIn(facts[..i], facts[i].namespace) + 1)
  {
    SequentialPrefix(facts, i + 1);
    assert facts[..i + 1][..i] == facts[..i];
  }

  // ---------- an id is recognised when cited ----------

  lemma {:induction false} IdTextAppend(a: Text, b: Text)
    requires IdText(a) && IdText(b)
    ensures IdText(a + b)
  {
    if a == [] {
      assert a + b == b;
    } else {
      assert (a + b)[1..] == a[1..] + b;
      IdTextAppend(a[1..], b);
    }
  }

  lemma {:induction false} DigitsIdText(t: Text)
    requires Digits(t)
    ensures IdText(t)
  {
    if t != [] {
      assert Digits(t[1..]);
      DigitsIdText(t[1..]);
    }
  }

  lemma {:induction false} MarkAppend(a: Text, b: Text)
    requires HasMark(b)
    ensures HasMark(a + b)
  {
    if a == [] {
      assert a + b == b;
    } else {
      assert (a + b)[1..] == a[1..] + b;
      MarkAppend(a[1..], b);
    }
  }

  lemma {:induction false} ClosesFirst(t: Text, open: nat, j: nat, close: nat)
    requires open < j <= close < |t| && t[close] == CLOSE
    requires forall k :: j <= k < close ==> t[k] != CLOSE
    ensures TokensIn(t, open, j) == TokenAt(t, open, close) + Tokens(t, close + 1)
    decreases close - j
  {
    if j < close {
      ClosesFirst(t, open, j + 1, close);
    }
  }

  /** Writing `[id]` for a fact of a plain namespace is read back as a citation of it. */
  lemma {:induction false} CitationRoundTrip(namespace: Text, ordinal: nat)
    requires IdText(namespace)
    ensures var id := IdOf(namespace, ordinal);
      Tokens([OPEN] + id + [CLOSE], 0) == [Token(id, 0, |id| + 2)]
  {
    var id := IdOf(namespace, ordinal);
    IdIsText(namespace, ordinal);
    MarkAppend(namespace, [Lead(':'), Lead('F')] + Padded(ordinal));
    assert namespace + ([Lead(':'), Lead('F')] + Padded(ordinal)) == id;
    CitedAlone(id);
  }

  lemma {:induction false} IdIsText(namespace: Text, ordinal: nat)
    requires IdText(namespace)
    ensures IdText(IdOf(namespace, ordinal))
  {
    var mark: Text := [Lead(':'), Lead('F')];
    PaddedReads(ordinal);
    DigitsIdText(Padded(ordinal));
    assert mark[1..] == [Lead('F')] && mark[1..][1..] == [];
    assert IdText(mark);
    IdTextAppend(namespace, mark);
    IdTextAppend(namespace + mark, Padded(ordinal));
  }

  lemma {:induction false} CitedAlone(id: Text)
    requires FactId(id)
    ensures Tokens([OPEN] + id + [CLOSE], 0) == [Token(id, 0, |id| + 2)]
  {
    var t := [OPEN] + id + [CLOSE];
    forall k | 1 <= k < |id| + 1
      ensures t[k] != CLOSE
    {
      IdTextAt(id, k - 1);
      assert t[k] == id[k - 1];
    }
    ClosesFirst(t, 0, 1, |id| + 1);
    assert t[1..|id| + 1] == id;
  }

  // ---------- given facts ----------

  /** A fact as the server hands it over. */
  datatype FactInput = FactInput(namespace: Text, source: Text, subjects: seq<Text>, metric: Text, value: Cell)

  function DraftOf(f: FactInput): Draft {
    Draft(f.namespace, f.source, f.subjects, f.metric, ValueText(f.value), CellNumbers(f.value))
  }

  /** The inputs that hold a number. */
  function InputDrafts(inputs: seq<FactInput>): (r: seq<Draft>)
    ensures |r| <= |inputs|
  {
    if inputs == [] then []
    else
      var before, last := InputDrafts(inputs[..|inputs| - 1]), inputs[|inputs| - 1];
      if CellNumbers(last.value) == [] then before else before + [DraftOf(last)]
  }

  /** The fact is the draft with an id. */
  predicate FromDraft(f: Fact, d: Draft) {
    f == Fact(f.id, d.namespace, d.source, d.subjects, d.metric, d.value, d.numbers)
  }

  ghost predicate FromDrafts(facts: seq<Fact>, lo: nat, drafts: seq<Draft>) {
    |facts| == lo + |drafts| && forall k :: 0 <= k < |drafts| ==> FromDraft(facts[lo + k], drafts[k])
  }

  lemma {:induction false} OneMoreDraft(facts: seq<Fact>, lo: nat, drafts: seq<Draft>, f: Fact, d: Draft)
    requires FromDrafts(facts, lo, drafts) && FromDraft(f, d)
    ensures FromDrafts(facts + [f], lo, drafts + [d])
  {
  }

  /** Every draft becomes one fact, in order, behind the facts there were. */
  lemma {:induction false} AddAllFromDrafts(facts: seq<Fact>, drafts: seq<Draft>)
    ensures FromDrafts(AddAll(facts, drafts), |facts|, drafts)
    decreases |drafts|
  {
    if drafts != [] {
      var n := |drafts| - 1;
      var before := AddAll(facts, drafts[..n]);
      AddAllFromDrafts(facts, drafts[..n]);
      OneMoreDraft(before, |facts|, drafts[..n], Numbered(before, drafts[n]), drafts[n]);
      assert drafts[..n] + [drafts[n]] == drafts;
    }
  }

  // ---------- tables ----------

  /** A cell of a result row. */
  datatype Cell = Null | Num(value: real, text: Text) | Str(text: Text) | Other(text: Text)

  predicate NumericChar(c: char) {
    IsDigit(c) || IsSpace(c) || c in ",.+-−%％¥￥$万亿元块个单家件条次位名行页台份笔户款人"
  }

  predicate SomeDigit(t: Text) {
    t != [] && ((t[0].Lead? && IsDigit(t[0].ch)) || SomeDigit(t[1..]))
  }

  predicate AllNumeric(t: Text) {
    t == [] || ((t[0].Lead? ==> NumericChar(t[0].ch)) && AllNumeric(t[1..]))
  }

  /** `numeric_cell`: some digit, and nothing but numbers and units. */
  predicate NumericCell(t: Text) { SomeDigit(t) && AllNumeric(t) }

  function EvidenceList(cs: seq<Claim>): seq<Evidence> {
    if cs == [] then []
    else if cs[0].what.Number? then [EvidenceOf(cs[0])] + EvidenceList(cs[1..])
    else EvidenceList(cs[1..])
  }

  /** `cell_numbers`. */
  function CellNumbers(c: Cell): seq<Evidence> {
    match c
    case Num(value, _) => [Evidence(value, Plain)]
    case Str(text) => if NumericCell(text) then EvidenceList(Numbers(text, 0)) else []
    case _ => []
  }

  function ValueText(c: Cell): Text {
    match c
    case Null => []
    case Num(_, text) => text
    case Str(text) => text
    case Other(text) => text
  }

  predicate AllDates(es: seq<Evidence>) {
    es == [] || (es[0].unit == Date && AllDates(es[1..]))
  }

  /** Bytes of the first `n` characters. */
  function Head(t: Text, n: nat): (k: nat)
    ensures k <= |t|
  {
    if t == [] then 0
    else if t[0].Lead? then (if n == 0 then 0 else 1 + Head(t[1..], n - 1))
    else 1 + Head(t[1..], n)
  }

  /** `clip`. */
  function Clip(t: Text, n: nat): Text {
    var k := Head(t, n);
    if k < |t| then t[..k] + [Lead('…'), Cont, Cont] else t
  }

  /** Whether a cell names the row rather than measuring it. */
  predicate IsSubject(c: Cell) {
    AllDates(CellNumbers(c)) && c != Null && Clip(ValueText(c), 72) != []
  }

  function RowSubjects(row: seq<Cell>): seq<Text> {
    if row == [] then []
    else if IsSubject(row[0]) then [Clip(ValueText(row[0]), 72)] + RowSubjects(row[1..])
    else RowSubjects(row[1..])
  }

  /** Column heading words that scale bare numbers. */
  datatype Scales = Scales(yi: seq<Text>, wan: seq<Text>)

  predicate AnyIn(t: Text, words: seq<Text>) {
    exists w :: w in words && Contains(t, w)
  }

  function Scaled(scales: Scales, metric: Text, es: seq<Evidence>): seq<Evidence> {
    seq(|es|, i requires 0 <= i < |es| =>
      if es[i].unit != Plain then es[i]
      else if AnyIn(metric, scales.yi) then es[i].(unit := Yi)
      else if AnyIn(metric, scales.wan) then es[i].(unit := Wan)
      else es[i])
  }

  /** The heading of a column, or a name made from its position. */
  function MetricName(columns: seq<Text>, c: nat): Text {
    if c < |columns| && Trim(columns[c]) != [] then columns[c]
    else [Lead('第'), Cont, Cont, SPACE] + Decimal(c + 1) + [SPACE, Lead('列'), Cont, Cont]
  }

  predicate IsMeasure(c: Cell) {
    !AllDates(CellNumbers(c))
  }

  /** The result of one question, as the contract takes it apart. */
  datatype Table = Table(namespace: Text, source: Text, columns: seq<Text>, scales: Scales, rows: seq<seq<Cell>>)

  /** The fact of cell `c`: about the row's subjects, holding the numbers of this cell and
      of no other. */
  function CellDraft(t: Table, row: seq<Cell>, c: nat): Draft
    requires c < |row|
  {
    var metric := MetricName(t.columns, c);
    Draft(t.namespace, t.source, RowSubjects(row), metric, ValueText(row[c]),
          Scaled(t.scales, metric, CellNumbers(row[c])))
  }

  /** The facts after the first `c` cells of a row. */
  function RowPushed(facts: seq<Fact>, t: Table, row: seq<Cell>, c: nat): seq<Fact>
    requires c <= |row|
  {
    if c == 0 then facts
    else
      CellPushed(RowPushed(facts, t, row, c - 1), t, row, c - 1)
  }

  /** The facts after the first `r` rows. */
  function TablePushed(facts: seq<Fact>, t: Table, r: nat): seq<Fact>
    requires r <= |t.rows|
  {
    if r == 0 then facts
    else
      var now := TablePushed(facts, t, r - 1);
      if |now| >= MAX_FACTS then now else RowPushed(now, t, t.rows[r - 1], |t.rows[r - 1]|)
  }

  function MeasureCount(row: seq<Cell>, c: nat): nat
    requires c <= |row|
  {
    if c == 0 then 0 else MeasureCount(row, c - 1) + (if IsMeasure(row[c - 1]) then 1 else 0)
  }

  function TableMeasures(t: Table, r: nat): nat
    requires r <= |t.rows|
  {
    if r == 0 then 0 else TableMeasures(t, r - 1) + MeasureCount(t.rows[r - 1], |t.rows[r - 1]|)
  }

  function Least(a: nat, b: nat): nat { if a < b then a else b }

  function Room(n: nat): nat {
    if n <= MAX_FACTS then MAX_FACTS - n else 0
  }

  /** The fact comes from one measuring cell of one row. */
  ghost predicate FromCell(before: seq<Fact>, f: Fact, t: Table, r: nat, c: nat) {
    && r < |t.rows| && c < |t.rows[r]| && IsMeasure(t.rows[r][c])
    && f == Numbered(before, CellDraft(t, t.rows[r], c))
  }

  ghost predicate Atomic(facts: seq<Fact>, k: nat, t: Table)
    requires k < |facts|
  {
    exists r: nat, c: nat :: FromCell(facts[..k], facts[k], t, r, c)
  }

  /** Old facts stay; one new fact per measuring cell while there is room; each new fact is
      made of a single cell. */
  ghost predicate Grown(old_: seq<Fact>, new_: seq<Fact>, measures: nat, t: Table) {
    && |new_| == |old_| + Least(measures, Room(|old_|))
    && new_[..|old_|] == old_
    && AllAtomic(new_, |old_|, t)
  }

  ghost predicate AllAtomic(facts: seq<Fact>, lo: nat, t: Table) {
    forall k :: lo <= k < |facts| ==> Atomic(facts, k, t)
  }

  lemma {:induction false} PushedAtomic(facts: seq<Fact>, t: Table, r: nat, c: nat, k: nat)
    requires r < |t.rows| && c < |t.rows[r]| && IsMeasure(t.rows[r][c])
    requires k <= |facts|
    requires k < |facts| ==> Atomic(facts, k, t)
    ensures Atomic(facts + [Numbered(facts, CellDraft(t, t.rows[r], c))], k, t)
  {
    var more := facts + [Numbered(facts, CellDraft(t, t.rows[r], c))];
    assert more[..k] == facts[..k];
    if k == |facts| {
      assert facts[..k] == facts;
      assert FromCell(more[..k], more[k], t, r, c);
    } else {
      var r', c' :| FromCell(facts[..k], facts[k], t, r', c');
      assert FromCell(more[..k], more[k], t, r', c');
    }
  }

  lemma {:induction false} AtomicMore(facts: seq<Fact>, lo: nat, t: Table, r: nat, c: nat)
    requires lo <= |facts| && AllAtomic(facts, lo, t)
    requires r < |t.rows| && c < |t.rows[r]| && IsMeasure(t.rows[r][c])
    ensures AllAtomic(facts + [Numbered(facts, CellDraft(t, t.rows[r], c))], lo, t)
  {
    var more := facts + [Numbered(facts, CellDraft(t, t.rows[r], c))];
    forall k | lo <= k < |more|
      ensures Atomic(more, k, t)
    {
      PushedAtomic(facts, t, r, c, k);
    }
  }

  lemma {:induction false} GrownMore(start: seq<Fact>, facts: seq<Fact>, measures: nat, t: Table, r: nat, c: nat)
    requires Grown(start, facts, measures, t) && |facts| < MAX_FACTS
    requires r < |t.rows| && c < |t.rows[r]| && IsMeasure(t.rows[r][c])
    ensures Grown(start, facts + [Numbered(facts, CellDraft(t, t.rows[r], c))], measures + 1, t)
  {
    var more := facts + [Numbered(facts, CellDraft(t, t.rows[r], c))];
    AtomicMore(facts, |start|, t, r, c);
    assert more[..|start|] == facts[..|start|];
  }

  function CellPushed(now: seq<Fact>, t: Table, row: seq<Cell>, c: nat): seq<Fact>
    requires c < |row|
  {
    if IsMeasure(row[c]) && |now| < MAX_FACTS then now + [Numbered(now, CellDraft(t, row, c))] else now
  }

  lemma {:induction false} CellGrown(start: seq<Fact>, now: seq<Fact>, measures: nat, t: Table, r: nat, c: nat)
    requires r < |t.rows| && c < |t.rows[r]| && Grown(start, now, measures, t)
    ensures Grown(start, CellPushed(now, t, t.rows[r], c), measures + (if IsMeasure(t.rows[r][c]) then 1 else 0), t)
  {
    if IsMeasure(t.rows[r][c]) && |now| < MAX_FACTS {
      GrownMore(start, now, measures, t, r, c);
    }
  }

  lemma {:induction false} RowGrown(start: seq<Fact>, facts: seq<Fact>, measures: nat, t: Table, r: nat, c: nat)
    returns (now: seq<Fact>, count: nat)
    requires r < |t.rows| && c <= |t.rows[r]| && Grown(start, facts, measures, t)
    ensures now == RowPushed(facts, t, t.rows[r], c) && count == MeasureCount(t.rows[r], c)
    ensures Grown(start, now, measures + count, t)
    decreases c
  {
    now, count := facts, 0;
    if c > 0 {
      var before, n := RowGrown(start, facts, measures, t, r, c - 1);
      CellGrown(start, before, measures + n, t, r, c - 1);
      now, count := CellPushed(before, t, t.rows[r], c - 1), n + (if IsMeasure(t.rows[r][c - 1]) then 1 else 0);
    }
  }

  /** What pushing a table does to the contract. */
  lemma {:induction false} TableGrown(facts: seq<Fact>, t: Table, r: nat)
    requires r <= |t.rows|
    ensures Grown(facts, TablePushed(facts, t, r), TableMeasures(t, r), t)
  {
    if r > 0 {
      TableGrown(facts, t, r - 1);
      var now, count := RowGrown(facts, TablePushed(facts, t, r - 1), TableMeasures(t, r - 1), t, r - 1, |t.rows[r - 1]|);
    } else {
      assert facts[..|facts|] == facts;
    }
  }

  lemma {:induction false} AtomicDraft(facts: seq<Fact>, k: nat, t: Table) returns (d: Draft)
    requires k < |facts| && Atomic(facts, k, t)
    ensures facts[k] == Numbered(facts[..k], d)
  {
    var r: nat, c: nat :| FromCell(facts[..k], facts[k], t, r, c);
    d := CellDraft(t, t.rows[r], c);
  }

  lemma {:induction false} GoesOn(before: seq<Fact>, f: Fact, d: Draft)
    requires Sequential(before) && f == Numbered(before, d)
    ensures Sequential(before + [f])
  {
    OneMore(before, d);
  }

  lemma {:induction false} PrefixGrows(facts: seq<Fact>, before: seq<Fact>)
    requires before <= facts
    ensures before == facts || (|before| < |facts| && facts[..|before|] == before && before + [facts[|before|]] <= facts)
  {
  }

  /** Facts made of cells carry on the numbering. */
  lemma {:induction false} AtomicSequential(facts: seq<Fact>, before: seq<Fact>, lo: nat, t: Table)
    requires before <= facts && lo <= |before| && Sequential(before) && AllAtomic(facts, lo, t)
    ensures Sequential(facts)
    decreases |facts| - |before|
  {
    PrefixGrows(facts, before);
    if before != facts {
      var d := AtomicDraft(facts, |before|, t);
      GoesOn(before, facts[|before|], d);
      AtomicSequential(facts, before + [facts[|before|]], lo, t);
    }
  }

  /** A table keeps the ids in sequence. */
  lemma {:induction false} TableKeepsSequence(facts: seq<Fact>, t: Table, r: nat)
    requires Sequential(facts) && r <= |t.rows|
    ensures Sequential(TablePushed(facts, t, r))
  {
    TableGrown(facts, t, r);
    AtomicSequential(TablePushed(facts, t, r), facts, |facts|, t);
  }
}
