/** The facts of a result table in full: which cells become facts, in which order, and what
    each fact says (crates/agent/src/answer_contract.rs:98-183 and 866-880, 1062-1101). */
module LedgerExact {
  import opened Text
  import opened Stripping
  import opened Numerals
  import opened Claims
  import opened Facts
  import opened Ledger
  import opened Backing

  // ---------- cells ----------

  /** A number, with its marks, signs and units, and nothing else. */
  predicate NumberChar(c: char) {
    || '0' <= c <= '9' || IsSpace(c)
    || c in ",.+-−%％¥￥$" || c in "万亿元块个单家件条次位名行页台份笔户款人"
  }

  predicate NumberText(t: Text) {
    && (exists i :: 0 <= i < |t| && t[i].Lead? && '0' <= t[i].ch <= '9')
    && forall i :: 0 <= i < |t| && t[i].Lead? ==> NumberChar(t[i].ch)
  }

  /** `e` is a number of the cell. */
  ghost predicate NumberOf(c: Cell, e: Evidence) {
    match c
    case Num(value, _) => e == Evidence(value, Plain)
    case Str(text) => NumberText(text) && exists cl :: cl in Numbers(text, 0) && cl.what.Number? && e == Said(cl)
    case _ => false
  }

  /** The cell measures something: it has a number that is no date. */
  ghost predicate Measures(c: Cell) {
    exists e :: NumberOf(c, e) && e.unit != Date
  }

  lemma {:induction false} EvidenceIs(cs: seq<Claim>, e: Evidence)
    ensures e in EvidenceList(cs) <==> exists cl :: cl in cs && cl.what.Number? && e == Said(cl)
  {
    if cs != [] {
      EvidenceIs(cs[1..], e);
      assert cs == [cs[0]] + cs[1..];
    }
  }

  lemma {:induction false} SomeDigitIs(t: Text)
    ensures SomeDigit(t) <==> exists i :: 0 <= i < |t| && t[i].Lead? && '0' <= t[i].ch <= '9'
  {
    if t != [] {
      SomeDigitIs(t[1..]);
      assert forall i :: 0 < i < |t| ==> t[i] == t[1..][i - 1];
      assert forall i :: 0 <= i < |t[1..]| ==> t[1..][i] == t[i + 1];
    }
  }

  lemma {:induction false} AllNumericIs(t: Text)
    ensures AllNumeric(t) <==> forall i :: 0 <= i < |t| && t[i].Lead? ==> NumberChar(t[i].ch)
  {
    if t != [] {
      AllNumericIs(t[1..]);
      if t[0].Lead? {
        NumberCharIs(t[0].ch);
      }
      assert forall i :: 0 < i < |t| ==> t[i] == t[1..][i - 1];
      assert forall i :: 0 <= i < |t[1..]| ==> t[1..][i] == t[i + 1];
    }
  }

  lemma {:induction false} NumberTextIs(t: Text)
    ensures NumericCell(t) <==> NumberText(t)
  {
    SomeDigitIs(t);
    AllNumericIs(t);
  }

  lemma {:induction false} NumberCharIs(c: char)
    ensures NumericChar(c) <==> NumberChar(c)
  {
  }

  lemma {:induction false} NumberOfIs(c: Cell, e: Evidence)
    ensures e in CellNumbers(c) <==> NumberOf(c, e)
  {
    if c.Str? {
      NumberTextIs(c.text);
      EvidenceIs(Numbers(c.text, 0), e);
    }
  }

  lemma {:induction false} AllDatesIs(es: seq<Evidence>)
    ensures AllDates(es) <==> forall e :: e in es ==> e.unit == Date
  {
    if es != [] {
      AllDatesIs(es[1..]);
      assert es == [es[0]] + es[1..];
    }
  }

  lemma {:induction false} MeasuresIs(c: Cell)
    ensures IsMeasure(c) <==> Measures(c)
  {
    AllDatesIs(CellNumbers(c));
    forall e
      ensures e in CellNumbers(c) <==> NumberOf(c, e)
    {
      NumberOfIs(c, e);
    }
  }

  // ---------- subjects ----------

  /** `x` is the text, or its first `n` characters and an ellipsis if there are more. */
  predicate Clips(t: Text, n: nat, x: Text) {
    if CharCount(t) <= n then x == t
    else exists k :: 0 <= k < |t| && t[k].Lead? && CharCount(t[..k]) == n && x == t[..k] + [Lead('…'), Cont, Cont]
  }

  lemma {:induction false} HeadIs(t: Text, n: nat)
    ensures var k := Head(t, n);
      if CharCount(t) <= n then k == |t| else k < |t| && t[k].Lead? && CharCount(t[..k]) == n
  {
    if t != [] {
      if !(t[0].Lead? && n == 0) {
        var m := if t[0].Lead? then n - 1 else n;
        HeadIs(t[1..], m);
        var k := Head(t[1..], m);
        if k < |t[1..]| {
          assert t[..k + 1][1..] == t[1..][..k] && t[1..][k] == t[k + 1];
        }
      }
    }
  }

  lemma {:induction false} ClipIs(t: Text, n: nat)
    ensures Clips(t, n, Clip(t, n))
  {
    HeadIs(t, n);
  }

  /** The texts of a row's cells that name it: all but null, empty and measuring ones. */
  ghost predicate NamesRow(row: seq<Cell>, subjects: seq<Text>)
    decreases |row|
  {
    if row == [] then subjects == []
    else if row[0].Null? || Measures(row[0]) || ValueText(row[0]) == [] then NamesRow(row[1..], subjects)
    else subjects != [] && Clips(ValueText(row[0]), 72, subjects[0]) && NamesRow(row[1..], subjects[1..])
  }

  lemma {:induction false} SubjectIs(c: Cell)
    ensures IsSubject(c) <==> !c.Null? && !Measures(c) && ValueText(c) != []
  {
    MeasuresIs(c);
  }

  lemma {:induction false} SubjectsName(row: seq<Cell>)
    ensures NamesRow(row, RowSubjects(row))
  {
    if row != [] {
      SubjectsName(row[1..]);
      SubjectIs(row[0]);
      ClipIs(ValueText(row[0]), 72);
      if IsSubject(row[0]) {
        assert RowSubjects(row)[1..] == RowSubjects(row[1..]);
      }
    }
  }

  // ---------- the fact of a cell ----------

  ghost predicate AllUtf8(texts: seq<Text>) { forall k :: 0 <= k < |texts| ==> Utf8(texts[k]) }

  /** The heading of column `c`, or 第 c+1 列 if it has none. */
  predicate Heads(columns: seq<Text>, c: nat, metric: Text) {
    if c < |columns| && !Blank(columns[c]) then metric == columns[c]
    else metric == [Lead('第'), Cont, Cont, SPACE] + Decimal(c + 1) + [SPACE, Lead('列'), Cont, Cont]
  }

  /** A bare number under a heading in hundred-millions or ten-thousands is one of these. */
  ghost predicate InScale(scales: Scales, metric: Text, e: Evidence, scaled: Evidence) {
    && scaled.value == e.value
    && scaled.unit ==
       if e.unit == Plain && (exists w :: w in scales.yi && Holds(metric, w)) then Yi
       else if e.unit == Plain && (exists w :: w in scales.wan && Holds(metric, w)) then Wan
       else e.unit
  }

  /** Fact `f` says what cell `c` of row `r` does. */
  ghost predicate Tells(f: Fact, t: Table, r: nat, c: nat)
    requires r < |t.rows| && c < |t.rows[r]|
  {
    var cell := t.rows[r][c];
    && f.namespace == t.namespace && f.source == t.source && f.value == ValueText(cell)
    && Heads(t.columns, c, f.metric) && NamesRow(t.rows[r], f.subjects)
    && forall x :: x in f.numbers <==> exists e :: NumberOf(cell, e) && InScale(t.scales, f.metric, e, x)
  }

  lemma {:induction false} BlankTrims(t: Text)
    requires Blank(t) && (t != [] ==> t[0].Lead?)
    ensures TrimStart(t) == []
    decreases |t|
  {
    if t != [] {
      DropContsShorter(t[1..]);
      BlankDrops(t[1..]);
      assert forall i :: 0 <= i < |t[1..]| ==> t[1..][i] == t[i + 1];
      BlankTrims(DropConts(t[1..]));
    }
  }

  lemma {:induction false} BlankDrops(t: Text)
    ensures Blank(t) ==> Blank(DropConts(t))
    ensures DropConts(t) != [] ==> DropConts(t)[0].Lead?
  {
    if t != [] && t[0].Cont? {
      BlankDrops(t[1..]);
      assert forall i :: 0 <= i < |t[1..]| ==> t[1..][i] == t[i + 1];
    }
  }

  lemma {:induction false} NoneTrimmed(t: Text)
    requires Utf8(t)
    ensures Trim(t) == [] <==> Blank(t)
  {
    if Blank(t) {
      BlankTrims(t);
    } else {
      var i, j := TrimExact(t);
      BlankParts(t, i);
    }
  }

  lemma {:induction false} BlankParts(t: Text, i: nat)
    requires i <= |t|
    ensures Blank(t[..i]) && Blank(t[i..]) ==> Blank(t)
  {
    assert forall k :: 0 <= k < |t| ==> if k < i then t[k] == t[..i][k] else t[k] == t[i..][k - i];
  }

  lemma {:induction false} AnyInIs(metric: Text, words: seq<Text>)
    ensures AnyIn(metric, words) <==> exists w :: w in words && Holds(metric, w)
  {
    forall w
      ensures Contains(metric, w) <==> Holds(metric, w)
    {
      HoldsIs(metric, w);
    }
  }

  lemma {:induction false} ScaledIs(scales: Scales, metric: Text, es: seq<Evidence>, i: nat)
    requires i < |es|
    ensures InScale(scales, metric, es[i], Scaled(scales, metric, es)[i])
  {
    AnyInIs(metric, scales.yi);
    AnyInIs(metric, scales.wan);
  }

  lemma {:induction false} ScaledAre(scales: Scales, metric: Text, cell: Cell)
    ensures forall x :: x in Scaled(scales, metric, CellNumbers(cell)) <==>
      exists e :: NumberOf(cell, e) && InScale(scales, metric, e, x)
  {
    var es := CellNumbers(cell);
    var xs := Scaled(scales, metric, es);
    forall x
      ensures x in xs <==> exists e :: NumberOf(cell, e) && InScale(scales, metric, e, x)
    {
      if x in xs {
        var i :| 0 <= i < |xs| && xs[i] == x;
        ScaledIs(scales, metric, es, i);
        NumberOfIs(cell, es[i]);
      }
      if e :| NumberOf(cell, e) && InScale(scales, metric, e, x) {
        NumberOfIs(cell, e);
        var i :| 0 <= i < |es| && es[i] == e;
        ScaledIs(scales, metric, es, i);
        assert xs[i] == x;
      }
    }
  }

  lemma {:induction false} DraftTells(facts: seq<Fact>, t: Table, r: nat, c: nat)
    requires r < |t.rows| && c < |t.rows[r]| && AllUtf8(t.columns)
    ensures Tells(Numbered(facts, CellDraft(t, t.rows[r], c)), t, r, c)
  {
    var metric := MetricName(t.columns, c);
    if c < |t.columns| {
      NoneTrimmed(t.columns[c]);
    }
    SubjectsName(t.rows[r]);
    ScaledAre(t.scales, metric, t.rows[r][c]);
  }

  // ---------- the whole table ----------

  datatype Place = Place(row: nat, col: nat)

  predicate Precedes(p: Place, q: Place) { p.row < q.row || (p.row == q.row && p.col < q.col) }

  predicate InTable(t: Table, p: Place) { p.row < |t.rows| && p.col < |t.rows[p.row]| }

  ghost predicate MeasuresAt(t: Table, p: Place) { InTable(t, p) && Measures(t.rows[p.row][p.col]) }

  ghost predicate TellsPlace(f: Fact, t: Table, p: Place) { InTable(t, p) && Tells(f, t, p.row, p.col) }

  ghost function Measuring(t: Table): Place -> bool { p => MeasuresAt(t, p) }

  ghost function Telling(t: Table): (Fact, Place) -> bool { (f, p) => TellsPlace(f, t, p) }

  /** `places` are those before column `c` of row `r` that are wanted, in reading order. */
  ghost predicate AllBefore(r: nat, c: nat, places: seq<Place>, wanted: Place -> bool) {
    InReadingOrder(places) && forall p :: BeforeIs(p, r, c, places, wanted)
  }

  ghost predicate BeforeIs(p: Place, r: nat, c: nat, places: seq<Place>, wanted: Place -> bool) {
    p in places <==> Precedes(p, Place(r, c)) && wanted(p)
  }

  /** Each place comes after those before it. */
  predicate InReadingOrder(places: seq<Place>) {
    places == [] ||
    (var n := |places| - 1;
     InReadingOrder(places[..n]) && forall p :: p in places[..n] ==> Precedes(p, places[n]))
  }

  /** The new facts tell the first places, one by one, as far as there is room for 128. */
  ghost predicate Told(old_: seq<Fact>, new_: seq<Fact>, places: seq<Place>, tells: (Fact, Place) -> bool) {
    && old_ <= new_ && |new_| <= |old_| + |places|
    && (|new_| < |old_| + |places| ==> |new_| >= 128)
    && (|new_| > |old_| ==> |new_| <= 128)
    && forall k :: TellsAt(old_, new_, places, tells, k)
  }

  ghost predicate TellsAt(old_: seq<Fact>, new_: seq<Fact>, places: seq<Place>, tells: (Fact, Place) -> bool, k: nat) {
    |old_| <= k < |new_| && k - |old_| < |places| ==> tells(new_[k], places[k - |old_|])
  }

  /** Pushing place `p` adds the fact that tells it, if it is wanted and there is room. */
  ghost predicate Step(now: seq<Fact>, next: seq<Fact>, p: Place, wanted: Place -> bool, tells: (Fact, Place) -> bool) {
    if wanted(p) && |now| < 128 then |next| == |now| + 1 && now <= next && tells(next[|now|], p) else next == now
  }

  ghost predicate AllSteps(t: Table, wanted: Place -> bool, tells: (Fact, Place) -> bool) {
    && (forall p :: wanted(p) ==> InTable(t, p))
    && forall now, p :: InTable(t, p) ==> StepAt(now, t, p, wanted, tells)
  }

  ghost predicate StepAt(now: seq<Fact>, t: Table, p: Place, wanted: Place -> bool, tells: (Fact, Place) -> bool)
    requires InTable(t, p)
  {
    Step(now, CellPushed(now, t, t.rows[p.row], p.col), p, wanted, tells)
  }

  lemma {:induction false} CellStep(now: seq<Fact>, t: Table, r: nat, c: nat)
    requires r < |t.rows| && c < |t.rows[r]| && AllUtf8(t.columns)
    ensures Step(now, CellPushed(now, t, t.rows[r], c), Place(r, c), Measuring(t), Telling(t))
  {
    DraftTells(now, t, r, c);
    var f, measures := CellNextIs(now, t, t.rows[r], c);
    MeasuresIs(t.rows[r][c]);
    StepIs(now, CellPushed(now, t, t.rows[r], c), t, r, c, f, measures);
  }

  lemma {:induction false} CellNextIs(now: seq<Fact>, t: Table, row: seq<Cell>, c: nat) returns (f: Fact, measures: bool)
    requires c < |row|
    ensures f == Numbered(now, CellDraft(t, row, c)) && measures == IsMeasure(row[c])
    ensures CellPushed(now, t, row, c) == if measures && |now| < 128 then now + [f] else now
  {
    f, measures := Numbered(now, CellDraft(t, row, c)), IsMeasure(row[c]);
  }

  lemma {:induction false} StepIs(now: seq<Fact>, next: seq<Fact>, t: Table, r: nat, c: nat, f: Fact, measures: bool)
    requires r < |t.rows| && c < |t.rows[r]| && Tells(f, t, r, c) && measures == Measures(t.rows[r][c])
    requires next == if measures && |now| < 128 then now + [f] else now
    ensures Step(now, next, Place(r, c), Measuring(t), Telling(t))
  {
    assert Telling(t)(f, Place(r, c)) == TellsPlace(f, t, Place(r, c));
  }

  lemma {:induction false} CellsStep(t: Table)
    requires AllUtf8(t.columns)
    ensures AllSteps(t, Measuring(t), Telling(t))
  {
    forall now: seq<Fact>, p | InTable(t, p)
      ensures StepAt(now, t, p, Measuring(t), Telling(t))
    {
      CellStep(now, t, p.row, p.col);
    }
  }

  lemma {:induction false} MorePlaces(r: nat, c: nat, places: seq<Place>, wanted: Place -> bool) returns (more: seq<Place>)
    requires AllBefore(r, c, places, wanted)
    ensures AllBefore(r, c + 1, more, wanted)
    ensures more == if wanted(Place(r, c)) then places + [Place(r, c)] else places
  {
    more := if wanted(Place(r, c)) then places + [Place(r, c)] else places;
    var next := c + 1;
    forall p
      ensures BeforeIs(p, r, next, more, wanted)
    {
      assert BeforeIs(p, r, c, places, wanted);
      assert Precedes(p, Place(r, c + 1)) <==> Precedes(p, Place(r, c)) || p == Place(r, c);
    }
    if wanted(Place(r, c)) {
      assert more[..|places|] == places;
      forall p | p in places
        ensures Precedes(p, Place(r, c))
      {
        assert BeforeIs(p, r, c, places, wanted);
      }
    }
  }

  lemma {:induction false} ToldNext(old_: seq<Fact>, now: seq<Fact>, next: seq<Fact>, p: Place, places: seq<Place>,
                                    wanted: Place -> bool, tells: (Fact, Place) -> bool)
    requires Told(old_, now, places, tells) && Step(now, next, p, wanted, tells)
    ensures Told(old_, next, if wanted(p) then places + [p] else places, tells)
  {
    var more := if wanted(p) then places + [p] else places;
    forall k: nat
      ensures TellsAt(old_, next, more, tells, k)
    {
      assert TellsAt(old_, now, places, tells, k);
    }
  }

  /** The facts now tell the places wanted before column `c` of row `r`. */
  ghost predicate Reached(old_: seq<Fact>, now: seq<Fact>, r: nat, c: nat, places: seq<Place>,
                          wanted: Place -> bool, tells: (Fact, Place) -> bool) {
    AllBefore(r, c, places, wanted) && Told(old_, now, places, tells)
  }

  lemma {:induction false} ReachedNext(old_: seq<Fact>, now: seq<Fact>, t: Table, r: nat, c: nat, places: seq<Place>,
                                       wanted: Place -> bool, tells: (Fact, Place) -> bool) returns (more: seq<Place>)
    requires r < |t.rows| && c < |t.rows[r]| && AllSteps(t, wanted, tells) && Reached(old_, now, r, c, places, wanted, tells)
    ensures Reached(old_, CellPushed(now, t, t.rows[r], c), r, c + 1, more, wanted, tells)
  {
    more := MorePlaces(r, c, places, wanted);
    assert StepAt(now, t, Place(r, c), wanted, tells);
    ToldNext(old_, now, CellPushed(now, t, t.rows[r], c), Place(r, c), places, wanted, tells);
  }

  lemma {:induction false} RowTold(old_: seq<Fact>, facts: seq<Fact>, t: Table, r: nat, c: nat, places: seq<Place>,
                                   wanted: Place -> bool, tells: (Fact, Place) -> bool)
    returns (now: seq<Fact>, more: seq<Place>)
    requires r < |t.rows| && c <= |t.rows[r]| && AllSteps(t, wanted, tells)
    requires Reached(old_, facts, r, 0, places, wanted, tells)
    ensures now == RowPushed(facts, t, t.rows[r], c) && Reached(old_, now, r, c, more, wanted, tells)
    decreases c
  {
    now, more := facts, places;
    if c > 0 {
      var b, before := RowTold(old_, facts, t, r, c - 1, places, wanted, tells);
      now := CellPushed(b, t, t.rows[r], c - 1);
      more := ReachedNext(old_, b, t, r, c - 1, before, wanted, tells);
    }
  }

  lemma {:induction false} RowSkipped(r: nat, c: nat, places: seq<Place>, wanted: Place -> bool) returns (more: seq<Place>)
    requires AllBefore(r, 0, places, wanted)
    ensures AllBefore(r, c, more, wanted) && places <= more
    decreases c
  {
    more := places;
    if c > 0 {
      var before := RowSkipped(r, c - 1, places, wanted);
      more := MorePlaces(r, c - 1, before, wanted);
    }
  }

  lemma {:induction false} NextRow(t: Table, r: nat, places: seq<Place>, wanted: Place -> bool)
    requires r < |t.rows| && (forall p :: wanted(p) ==> InTable(t, p)) && AllBefore(r, |t.rows[r]|, places, wanted)
    ensures AllBefore(r + 1, 0, places, wanted)
  {
    var next := r + 1;
    forall p
      ensures BeforeIs(p, next, 0, places, wanted)
    {
      assert BeforeIs(p, r, |t.rows[r]|, places, wanted);
    }
  }

  lemma {:induction false} FullStays(old_: seq<Fact>, now: seq<Fact>, places: seq<Place>, more: seq<Place>, tells: (Fact, Place) -> bool)
    requires Told(old_, now, places, tells) && |now| >= 128 && places <= more
    ensures Told(old_, now, more, tells)
  {
    forall k: nat
      ensures TellsAt(old_, now, more, tells, k)
    {
      assert TellsAt(old_, now, places, tells, k);
    }
  }

  lemma {:induction false} RowsTold(facts: seq<Fact>, t: Table, r: nat, wanted: Place -> bool, tells: (Fact, Place) -> bool)
    returns (now: seq<Fact>, places: seq<Place>)
    requires r <= |t.rows| && AllSteps(t, wanted, tells)
    ensures now == TablePushed(facts, t, r) && Reached(facts, now, r, 0, places, wanted, tells)
  {
    if r == 0 {
      now := facts;
      places := NoneYet(facts, wanted, tells);
    } else {
      var b, before := RowsTold(facts, t, r - 1, wanted, tells);
      now, places := NextRowTold(facts, b, t, r - 1, before, wanted, tells);
    }
  }

  lemma {:induction false} NoneYet(facts: seq<Fact>, wanted: Place -> bool, tells: (Fact, Place) -> bool) returns (places: seq<Place>)
    ensures Reached(facts, facts, 0, 0, places, wanted, tells)
  {
    places := [];
    forall p
      ensures BeforeIs(p, 0, 0, places, wanted)
    {
    }
    forall k: nat
      ensures TellsAt(facts, facts, places, tells, k)
    {
    }
  }

  lemma {:induction false} NextRowTold(facts: seq<Fact>, now: seq<Fact>, t: Table, r: nat, before: seq<Place>,
                                       wanted: Place -> bool, tells: (Fact, Place) -> bool)
    returns (next: seq<Fact>, places: seq<Place>)
    requires r < |t.rows| && AllSteps(t, wanted, tells) && Reached(facts, now, r, 0, before, wanted, tells)
    ensures next == if |now| >= MAX_FACTS then now else RowPushed(now, t, t.rows[r], |t.rows[r]|)
    ensures Reached(facts, next, r + 1, 0, places, wanted, tells)
  {
    if |now| >= MAX_FACTS {
      next := now;
      places := RowSkipped(r, |t.rows[r]|, before, wanted);
      FullStays(facts, now, before, places, tells);
    } else {
      next, places := RowTold(facts, now, t, r, |t.rows[r]|, before, wanted, tells);
    }
    NextRow(t, r, places, wanted);
  }

  /** A table in full: the old facts, and behind them one fact for each measuring cell of the
      first rows, in reading order, as far as there is room, saying what its cell does. */
  lemma {:induction false} TableInFull(facts: seq<Fact>, t: Table, r: nat) returns (places: seq<Place>)
    requires r <= |t.rows| && AllUtf8(t.columns)
    ensures AllBefore(r, 0, places, Measuring(t)) && Told(facts, TablePushed(facts, t, r), places, Telling(t))
  {
    CellsStep(t);
    var now;
    now, places := RowsTold(facts, t, r, Measuring(t), Telling(t));
  }

  // ---------- given facts ----------

  ghost predicate HasNumber(c: Cell) { exists e :: NumberOf(c, e) }

  /** Fact `f` is the input, with an id. */
  ghost predicate TellsInput(f: Fact, x: FactInput) {
    && f.namespace == x.namespace && f.source == x.source && f.subjects == x.subjects && f.metric == x.metric
    && f.value == ValueText(x.value) && forall e :: e in f.numbers <==> NumberOf(x.value, e)
  }

  /** One fact for each input that has a number, in order. */
  ghost predicate GivenBy(inputs: seq<FactInput>, facts: seq<Fact>)
    decreases |inputs|
  {
    if inputs == [] then facts == []
    else
      var n := |inputs| - 1;
      if !HasNumber(inputs[n].value) then GivenBy(inputs[..n], facts)
      else facts != [] && TellsInput(facts[|facts| - 1], inputs[n]) && GivenBy(inputs[..n], facts[..|facts| - 1])
  }

  lemma {:induction false} HasNumberIs(c: Cell)
    ensures CellNumbers(c) != [] <==> HasNumber(c)
  {
    forall e
      ensures e in CellNumbers(c) <==> NumberOf(c, e)
    {
      NumberOfIs(c, e);
    }
    if CellNumbers(c) != [] {
      assert CellNumbers(c)[0] in CellNumbers(c);
    }
  }

  lemma {:induction false} InputTold(facts: seq<Fact>, x: FactInput)
    ensures TellsInput(Numbered(facts, DraftOf(x)), x)
  {
    forall e
      ensures e in CellNumbers(x.value) <==> NumberOf(x.value, e)
    {
      NumberOfIs(x.value, e);
    }
  }

  /** A contract made of given facts holds those that have a number. */
  lemma {:induction false} GivenInFull(inputs: seq<FactInput>)
    ensures GivenBy(inputs, AddAll([], InputDrafts(inputs)))
    decreases |inputs|
  {
    if inputs != [] {
      var n := |inputs| - 1;
      GivenInFull(inputs[..n]);
      HasNumberIs(inputs[n].value);
      if HasNumber(inputs[n].value) {
        GivenLast(InputDrafts(inputs[..n]), inputs[n]);
      }
    }
  }

  lemma {:induction false} GivenLast(before: seq<Draft>, x: FactInput)
    ensures var facts := AddAll([], before + [DraftOf(x)]);
      facts != [] && TellsInput(facts[|facts| - 1], x) && facts[..|facts| - 1] == AddAll([], before)
  {
    var drafts := before + [DraftOf(x)];
    assert drafts[..|before|] == before && drafts[|before|] == DraftOf(x);
    InputTold(AddAll([], before), x);
  }

  // ---------- ids ----------

  /** An id is the namespace, `:F`, and the ordinal with at least three digits, zeros in front
      only to make it three. */
  lemma {:induction false} IdExact(namespace: Text, m: nat)
    ensures var id := IdOf(namespace, m);
      exists ds :: id == namespace + ([Lead(':'), Lead('F')] + ds) && Digits(ds) && Mantissa(ds, 0) == m
                   && |ds| >= 3 && (|ds| > 3 ==> ds[0] != Lead('0'))
  {
    PaddedReads(m);
    PaddedLength(m);
    var ds := Padded(m);
    assert IdOf(namespace, m) == namespace + ([Lead(':'), Lead('F')] + ds);
  }

  lemma {:induction false} PaddedLength(m: nat)
    ensures |Padded(m)| >= 3 && (|Padded(m)| > 3 ==> Padded(m)[0] != Lead('0'))
  {
    if m >= 10 {
      DecimalLong(m / 10);
      assert Decimal(m)[0] == Decimal(m / 10)[0];
      if m >= 100 {
        DecimalLong(m / 100);
        assert Decimal(m / 10)[0] == Decimal(m / 100)[0];
      } else {
        assert |Decimal(m / 10)| == 1;
      }
    }
  }

  lemma {:induction false} DecimalLong(m: nat)
    ensures |Decimal(m)| >= 1 && (m > 0 ==> Decimal(m)[0] != Lead('0'))
  {
    if m >= 10 {
      DecimalLong(m / 10);
      assert Decimal(m)[0] == Decimal(m / 10)[0];
    }
  }
}
