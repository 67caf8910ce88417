/** Comparing a result set with the expected one (tools/evaluation.py:367-425). Numbers are
    exact; how a text reads as a number, and the order of the rows' JSON texts, are
    parameters. */
module ResultCompare {
  import opened PyText

  datatype Option<+T> = None | Some(value: T)

  /** A value as the database gives it: null, or what `str` makes of it. */
  type Value = Option<string>

  datatype Cell = Null | Number(value: real) | Words(text: string)

  type Row = seq<Cell>

  /** The finite number a text reads as, if it does. */
  type Reader = string -> Option<real>

  /** `<=` on the rows' JSON texts. Different rows have different texts. */
  type Order = (Row, Row) -> bool

  ghost predicate Total(leq: Order) {
    && (forall a, b :: leq(a, b) || leq(b, a))
    && (forall a, b, c :: leq(a, b) && leq(b, c) ==> leq(a, c))
    && (forall a, b :: leq(a, b) && leq(b, a) ==> a == b)
  }

  // ---------- cells ----------

  function WithoutPercent(s: string): string {
    if s != "" && s[|s| - 1] == '%' then WithoutPercent(s[..|s| - 1]) else s
  }

  function WithoutCommas(s: string): string {
    if s == "" then "" else if s[0] == ',' then WithoutCommas(s[1..]) else [s[0]] + WithoutCommas(s[1..])
  }

  function WithoutCurrency(s: string): string {
    if s != "" && (s[0] == '¥' || s[0] == '$') then WithoutCurrency(s[1..]) else s
  }

  /** `cell`. */
  function CellOf(v: Value, reader: Reader): Cell {
    match v
    case None => Null
    case Some(text) =>
      var s := Strip(text);
      var f := reader(WithoutCurrency(WithoutCommas(WithoutPercent(s))));
      if f.Some? then Number(f.value) else Words(s)
  }

  function Abs(x: real): real { if x < 0.0 then -x else x }

  function Larger(x: real, y: real): real { if x < y then y else x }

  const TOLERANCE := 0.005
  const TINY := 0.000000001

  /** `close`. */
  predicate Close(a: Cell, b: Cell) {
    if a.Number? && b.Number? then
      a.value == b.value || Abs(a.value - b.value) / Larger(Larger(Abs(a.value), Abs(b.value)), TINY) <= TOLERANCE
    else a == b
  }

  lemma {:induction false} CloseMeaning(a: Cell, b: Cell)
    ensures Close(a, a)
    ensures Close(a, b) <==> Close(b, a)
  {
    if a.Number? && b.Number? {
      assert Abs(a.value - b.value) == Abs(b.value - a.value);
      assert Larger(Abs(a.value), Abs(b.value)) == Larger(Abs(b.value), Abs(a.value));
    }
  }

  predicate CloseRows(a: Row, b: Row) {
    |a| == |b| && forall j :: 0 <= j < |a| ==> Close(a[j], b[j])
  }

  // ---------- rows ----------

  function RowOf(r: seq<Value>, reader: Reader): (c: Row)
    ensures |c| == |r|
  {
    seq(|r|, j requires 0 <= j < |r| => CellOf(r[j], reader))
  }

  function RowsOf(rows: seq<seq<Value>>, reader: Reader): (r: seq<Row>)
    ensures |r| == |rows|
    ensures forall i :: 0 <= i < |r| ==> r[i] == RowOf(rows[i], reader)
  {
    if rows == [] then [] else [RowOf(rows[0], reader)] + RowsOf(rows[1..], reader)
  }

  function Insert(r: Row, rows: seq<Row>, leq: Order): (s: seq<Row>)
    ensures |s| == |rows| + 1
  {
    if rows == [] || leq(r, rows[0]) then [r] + rows else [rows[0]] + Insert(r, rows[1..], leq)
  }

  function Sorted(rows: seq<Row>, leq: Order): (s: seq<Row>)
    ensures |s| == |rows|
  {
    if rows == [] then [] else Insert(rows[0], Sorted(rows[1..], leq), leq)
  }

  /** `rows_key`. */
  function RowsKey(rows: seq<seq<Value>>, reader: Reader, leq: Order): (s: seq<Row>)
    ensures |s| == |rows|
  {
    Sorted(RowsOf(rows, reader), leq)
  }

  predicate InOrder(rows: seq<Row>, leq: Order) {
    |rows| <= 1 || (leq(rows[0], rows[1]) && InOrder(rows[1..], leq))
  }

  lemma {:induction false} InsertInOrder(r: Row, rows: seq<Row>, leq: Order)
    requires Total(leq) && InOrder(rows, leq)
    ensures InOrder(Insert(r, rows, leq), leq)
    ensures multiset(Insert(r, rows, leq)) == multiset{r} + multiset(rows)
  {
    if rows == [] || leq(r, rows[0]) {
      assert ([r] + rows)[1..] == rows;
    } else {
      InsertInOrder(r, rows[1..], leq);
      var rest := Insert(r, rows[1..], leq);
      assert ([rows[0]] + rest)[1..] == rest;
      assert rows == [rows[0]] + rows[1..];
    }
  }

  lemma {:induction false} SortedInOrder(rows: seq<Row>, leq: Order)
    requires Total(leq)
    ensures InOrder(Sorted(rows, leq), leq) && multiset(Sorted(rows, leq)) == multiset(rows)
  {
    if rows != [] {
      SortedInOrder(rows[1..], leq);
      InsertInOrder(rows[0], Sorted(rows[1..], leq), leq);
      assert rows == [rows[0]] + rows[1..];
    }
  }

  lemma {:induction false} FirstIsLeast(rows: seq<Row>, leq: Order, r: Row)
    requires Total(leq) && InOrder(rows, leq) && r in rows
    ensures leq(rows[0], r)
  {
    if r != rows[0] {
      assert r in rows[1..];
      FirstIsLeast(rows[1..], leq, r);
    }
  }

  lemma {:induction false} SameFirst(a: seq<Row>, b: seq<Row>, leq: Order)
    requires Total(leq) && InOrder(a, leq) && InOrder(b, leq) && multiset(a) == multiset(b) && a != [] && b != []
    ensures a[0] == b[0]
  {
    assert a[0] in multiset(b) && b[0] in multiset(a);
    FirstIsLeast(a, leq, b[0]);
    FirstIsLeast(b, leq, a[0]);
  }

  lemma {:induction false} SameTails(a: seq<Row>, b: seq<Row>)
    requires multiset(a) == multiset(b) && a != [] && b != [] && a[0] == b[0]
    ensures multiset(a[1..]) == multiset(b[1..])
  {
    assert a == [a[0]] + a[1..] && b == [b[0]] + b[1..];
    assert multiset(a[1..]) == multiset(a) - multiset{a[0]};
    assert multiset(b[1..]) == multiset(b) - multiset{b[0]};
  }

  /** Only one ordering has given rows in it. */
  lemma {:induction false} OrderUnique(a: seq<Row>, b: seq<Row>, leq: Order)
    requires Total(leq) && InOrder(a, leq) && InOrder(b, leq) && multiset(a) == multiset(b)
    ensures a == b
    decreases |a|
  {
    assert |a| == |multiset(a)| == |multiset(b)| == |b|;
    if a != [] {
      SameFirst(a, b, leq);
      SameTails(a, b);
      OrderUnique(a[1..], b[1..], leq);
      assert a == [a[0]] + a[1..] && b == [b[0]] + b[1..];
    }
  }

  // ---------- the comparison ----------

  /** The three verdicts: no expected row to compare with, equal, different. */
  datatype Verdict = NoGold | Equal | Different

  predicate SameWidth(rows: seq<seq<Value>>, w: nat) {
    forall i :: 0 <= i < |rows| ==> |rows[i]| == w
  }

  predicate AllClose(a: seq<Row>, b: seq<Row>) {
    |a| == |b| && forall i :: 0 <= i < |a| ==> CloseRows(a[i], b[i])
  }

  /** The rows, in order, close pair by pair. */
  function Judged(got: seq<seq<Value>>, gold: seq<seq<Value>>, reader: Reader, leq: Order): Verdict {
    if gold == [] then NoGold
    else if |got| != |gold| then Different
    else if !SameWidth(got, |gold[0]|) || !SameWidth(gold, |gold[0]|) then Different
    else if AllClose(RowsKey(got, reader, leq), RowsKey(gold, reader, leq)) then Equal else Different
  }

  /** `compare`. */
  method Compare(got: seq<seq<Value>>, gold: seq<seq<Value>>, reader: Reader, leq: Order) returns (v: Verdict)
    requires Total(leq)
    ensures v == Judged(got, gold, reader, leq)
  {
    if gold == [] { return NoGold; }
    if |got| != |gold| { return Different; }
    var w := |gold[0]|;
    if (exists i :: 0 <= i < |got| && |got[i]| != w) || (exists i :: 0 <= i < |gold| && |gold[i]| != w) {
      return Different;
    }
    var a, b := RowsKey(got, reader, leq), RowsKey(gold, reader, leq);
    SortedWidths(got, reader, leq, w);
    SortedWidths(gold, reader, leq, w);
    for i := 0 to |a|
      invariant forall k :: 0 <= k < i ==> CloseRows(a[k], b[k])
    {
      for j := 0 to |a[i]|
        invariant forall k :: 0 <= k < j ==> Close(a[i][k], b[i][k])
      {
        if !Close(a[i][j], b[i][j]) {
          assert !CloseRows(a[i], b[i]);
          return Different;
        }
      }
    }
    return Equal;
  }

  lemma {:induction false} SortedWidths(rows: seq<seq<Value>>, reader: Reader, leq: Order, w: nat)
    requires Total(leq) && SameWidth(rows, w)
    ensures forall i :: 0 <= i < |rows| ==> |RowsKey(rows, reader, leq)[i]| == w
  {
    var cells, s := RowsOf(rows, reader), RowsKey(rows, reader, leq);
    SortedInOrder(cells, leq);
    forall i | 0 <= i < |rows|
      ensures |s[i]| == w
    {
      assert s[i] in multiset(s);
      assert s[i] in cells;
    }
  }

  // ---------- what the verdict means ----------

  /** Each index below `n` once. */
  predicate Arrangement(p: seq<nat>, n: nat) {
    |p| == n && (forall k :: 0 <= k < n ==> p[k] < n) && forall k, l :: 0 <= k < l < n ==> p[k] != p[l]
  }

  function Shifted(p: seq<nat>): (r: seq<nat>)
    ensures |r| == |p| && forall k :: 0 <= k < |p| ==> r[k] == p[k] + 1
  {
    seq(|p|, k requires 0 <= k < |p| => p[k] + 1)
  }

  /** Where the sorted rows stood. */
  lemma {:induction false} SortArranges(rows: seq<Row>, leq: Order) returns (p: seq<nat>)
    ensures Arrangement(p, |rows|)
    ensures forall k :: 0 <= k < |rows| ==> Sorted(rows, leq)[k] == rows[p[k]]
  {
    if rows == [] {
      p := [];
    } else {
      var q := SortArranges(rows[1..], leq);
      var pos := InsertAt(rows[0], Sorted(rows[1..], leq), leq);
      var s := Shifted(q);
      p := s[..pos] + [0] + s[pos..];
      ArrangementInsert(q, |rows| - 1, pos);
    }
  }

  lemma {:induction false} ArrangementInsert(q: seq<nat>, n: nat, pos: nat)
    requires Arrangement(q, n) && pos <= n
    ensures Arrangement(Shifted(q)[..pos] + [0] + Shifted(q)[pos..], n + 1)
  {
  }

  lemma {:induction false} InsertAt(r: Row, rows: seq<Row>, leq: Order) returns (pos: nat)
    ensures pos <= |rows| && Insert(r, rows, leq) == rows[..pos] + [r] + rows[pos..]
  {
    if rows == [] || leq(r, rows[0]) {
      pos := 0;
    } else {
      var q := InsertAt(r, rows[1..], leq);
      pos := q + 1;
      assert rows[..pos] == [rows[0]] + rows[1..][..q];
      assert rows[pos..] == rows[1..][q..];
    }
  }

  /** `p[k]` is paired with `q[k]`. */
  ghost predicate Paired(got: seq<Row>, gold: seq<Row>, p: seq<nat>, q: seq<nat>) {
    && Arrangement(p, |got|) && Arrangement(q, |gold|) && |got| == |gold|
    && forall k :: 0 <= k < |p| ==> CloseRows(got[p[k]], gold[q[k]])
  }

  /** A positive verdict: there are rows, and a one-to-one pairing of the two sides under
      which every cell is within tolerance of its partner. */
  lemma {:induction false} EqualMeansPaired(got: seq<seq<Value>>, gold: seq<seq<Value>>, reader: Reader, leq: Order)
    returns (p: seq<nat>, q: seq<nat>)
    requires Judged(got, gold, reader, leq) == Equal
    ensures gold != [] && Paired(RowsOf(got, reader), RowsOf(gold, reader), p, q)
  {
    p := SortArranges(RowsOf(got, reader), leq);
    q := SortArranges(RowsOf(gold, reader), leq);
  }

  /** The rows as `p` lists them. */
  function Listed(rows: seq<Row>, p: seq<nat>): (r: seq<Row>)
    requires forall k :: 0 <= k < |p| ==> p[k] < |rows|
    ensures |r| == |p| && forall k :: 0 <= k < |p| ==> r[k] == rows[p[k]]
  {
    if p == [] then [] else [rows[p[0]]] + Listed(rows, p[1..])
  }

  /** `p` lists the rows in the order of their texts. */
  predicate ListsInOrder(rows: seq<Row>, p: seq<nat>, leq: Order) {
    Arrangement(p, |rows|) && InOrder(Listed(rows, p), leq)
  }

  function Below(n: nat): set<nat> {
    if n == 0 then {} else Below(n - 1) + {n - 1}
  }

  lemma {:induction false} BelowSize(n: nat)
    ensures |Below(n)| == n && forall x: nat :: x in Below(n) <==> x < n
  {
    if n > 0 {
      BelowSize(n - 1);
    }
  }

  function Elements(p: seq<nat>): set<nat> { set x | x in p }

  lemma {:induction false} ElementsSize(p: seq<nat>)
    requires forall k, l :: 0 <= k < l < |p| ==> p[k] != p[l]
    ensures |Elements(p)| == |p|
    decreases |p|
  {
    if p != [] {
      var init, last := p[..|p| - 1], p[|p| - 1];
      ElementsSize(init);
      assert p == init + [last];
      assert Elements(p) == Elements(init) + {last};
      assert last !in init;
    }
  }

  lemma {:induction false} FullSet(a: set<nat>, b: set<nat>)
    requires a <= b && |a| == |b|
    ensures a == b
  {
    if x :| x in b && x !in a {
      FullSetHelp(a, b, x);
    }
  }

  lemma {:induction false} FullSetHelp(a: set<nat>, b: set<nat>, x: nat)
    requires a <= b && x in b && x !in a
    ensures |a| < |b|
  {
    assert |b - a| == |b| - |a|;
    assert x in b - a;
  }

  /** An arrangement misses no index. */
  lemma {:induction false} ArrangementCovers(p: seq<nat>, n: nat, x: nat) returns (j: nat)
    requires Arrangement(p, n) && x < n
    ensures j < n && p[j] == x
  {
    ElementsSize(p);
    BelowSize(n);
    assert Elements(p) <= Below(n);
    FullSet(Elements(p), Below(n));
    assert x in Elements(p);
    assert x in p;
    j :| j < n && p[j] == x;
  }

  lemma {:induction false} ArrangementWithout(p: seq<nat>, n: nat, j: nat)
    requires Arrangement(p, n + 1) && j <= n && p[j] == n
    ensures Arrangement(p[..j] + p[j + 1..], n)
  {
    var q := p[..j] + p[j + 1..];
    forall k | 0 <= k < n
      ensures q[k] < n
    {
      assert q[k] == p[if k < j then k else k + 1];
    }
  }

  lemma {:induction false} ListedCat(rows: seq<Row>, p: seq<nat>, q: seq<nat>)
    requires forall k :: 0 <= k < |p| ==> p[k] < |rows|
    requires forall k :: 0 <= k < |q| ==> q[k] < |rows|
    ensures forall k :: 0 <= k < |p + q| ==> (p + q)[k] < |rows|
    ensures Listed(rows, p + q) == Listed(rows, p) + Listed(rows, q)
  {
  }

  lemma {:induction false} ListedFewer(rows: seq<Row>, p: seq<nat>)
    requires rows != [] && forall k :: 0 <= k < |p| ==> p[k] < |rows| - 1
    ensures Listed(rows, p) == Listed(rows[..|rows| - 1], p)
  {
  }

  predicate Within(p: seq<nat>, n: nat) {
    forall k :: 0 <= k < |p| ==> p[k] < n
  }

  lemma {:induction false} WithinParts(a: seq<nat>, b: seq<nat>, n: nat)
    requires Within(a + b, n)
    ensures Within(a, n) && Within(b, n)
  {
    assert forall k :: 0 <= k < |a| ==> (a + b)[k] == a[k];
    assert forall k :: 0 <= k < |b| ==> (a + b)[|a| + k] == b[k];
  }

  lemma {:induction false} ListedMiddle(rows: seq<Row>, a: seq<nat>, x: nat, b: seq<nat>)
    requires Within(a, |rows|) && Within(b, |rows|) && x < |rows|
    ensures Within(a + ([x] + b), |rows|) && Within(a + b, |rows|)
    ensures multiset(Listed(rows, a + ([x] + b))) == multiset{rows[x]} + multiset(Listed(rows, a + b))
  {
    ListedCat(rows, a, b);
    ListedCat(rows, [x], b);
    ListedCat(rows, a, [x] + b);
    assert [x][1..] == [];
    assert Listed(rows, [x]) == [rows[x]];
    Inserted(Listed(rows, a), rows[x], Listed(rows, b));
  }

  lemma {:induction false} BagWithLast(rows: seq<Row>)
    requires rows != []
    ensures multiset(rows) == multiset{rows[|rows| - 1]} + multiset(rows[..|rows| - 1])
  {
    assert rows == rows[..|rows| - 1] + [rows[|rows| - 1]];
  }

  lemma {:induction false} WithoutAt(p: seq<nat>, j: nat)
    requires j < |p|
    ensures p == p[..j] + ([p[j]] + p[j + 1..])
  {
  }

  /** Listing by an arrangement keeps the rows as they are, as a bag. */
  lemma {:induction false} ListedBag(rows: seq<Row>, p: seq<nat>)
    requires Arrangement(p, |rows|)
    ensures multiset(Listed(rows, p)) == multiset(rows)
    decreases |rows|
  {
    if rows == [] {
      assert p == [];
    } else {
      var n := |rows| - 1;
      var j := ArrangementCovers(p, n + 1, n);
      var a, b := p[..j], p[j + 1..];
      ArrangementWithout(p, n, j);
      ListedBag(rows[..n], a + b);
      ListedFewer(rows, a + b);
      WithoutAt(p, j);
      assert Within(a + b, n);
      WithinParts(a, b, n);
      ListedMiddle(rows, a, n, b);
      BagWithLast(rows);
    }
  }

  /** Rows listed in order are the sorted rows. */
  lemma {:induction false} ListedIsSorted(rows: seq<Row>, p: seq<nat>, leq: Order)
    requires Total(leq) && ListsInOrder(rows, p, leq)
    ensures Listed(rows, p) == Sorted(rows, leq)
  {
    ListedBag(rows, p);
    SortedInOrder(rows, leq);
    OrderUnique(Listed(rows, p), Sorted(rows, leq), leq);
  }

  /** The rows can be paired within tolerance with both sides in order. */
  ghost predicate PairedInOrder(got: seq<Row>, gold: seq<Row>, leq: Order) {
    exists p, q :: Paired(got, gold, p, q) && ListsInOrder(got, p, leq) && ListsInOrder(gold, q, leq)
  }

  lemma {:induction false} SortListsInOrder(rows: seq<Row>, leq: Order) returns (p: seq<nat>)
    requires Total(leq)
    ensures ListsInOrder(rows, p, leq)
    ensures forall k :: 0 <= k < |rows| ==> Sorted(rows, leq)[k] == rows[p[k]]
  {
    p := SortArranges(rows, leq);
    SortedInOrder(rows, leq);
    assert Listed(rows, p) == Sorted(rows, leq);
  }

  lemma {:induction false} OrderedPairsAreClose(got: seq<Row>, gold: seq<Row>, p: seq<nat>, q: seq<nat>, leq: Order)
    requires Total(leq) && Paired(got, gold, p, q) && ListsInOrder(got, p, leq) && ListsInOrder(gold, q, leq)
    ensures AllClose(Sorted(got, leq), Sorted(gold, leq))
  {
    ListedIsSorted(got, p, leq);
    ListedIsSorted(gold, q, leq);
    forall k | 0 <= k < |p|
      ensures CloseRows(Sorted(got, leq)[k], Sorted(gold, leq)[k])
    {
      assert Sorted(got, leq)[k] == got[p[k]] && Sorted(gold, leq)[k] == gold[q[k]];
    }
  }

  /** Exactly when two sides are judged equal: there is an expected row, all rows are equally
      wide, and a pairing within tolerance takes both sides in the order of their texts. */
  lemma {:induction false} EqualExactly(got: seq<seq<Value>>, gold: seq<seq<Value>>, reader: Reader, leq: Order)
    requires Total(leq)
    ensures Judged(got, gold, reader, leq) == Equal <==>
      && gold != [] && |got| == |gold| && SameWidth(got, |gold[0]|) && SameWidth(gold, |gold[0]|)
      && PairedInOrder(RowsOf(got, reader), RowsOf(gold, reader), leq)
  {
    var a, b := RowsOf(got, reader), RowsOf(gold, reader);
    if PairedInOrder(a, b, leq) {
      var p, q :| Paired(a, b, p, q) && ListsInOrder(a, p, leq) && ListsInOrder(b, q, leq);
      OrderedPairsAreClose(a, b, p, q, leq);
    }
    if Judged(got, gold, reader, leq) == Equal {
      var p := SortListsInOrder(a, leq);
      var q := SortListsInOrder(b, leq);
      assert Paired(a, b, p, q);
    }
  }

  lemma {:induction false} TakenOut<T>(b: seq<T>, j: nat)
    requires j < |b|
    ensures multiset(b) == multiset{b[j]} + multiset(b[..j] + b[j + 1..])
  {
    assert b == b[..j] + [b[j]] + b[j + 1..];
  }

  lemma {:induction false} SameRest<T>(a: seq<T>, rest: seq<T>, b: seq<T>)
    requires a != [] && multiset(a) == multiset(b) == multiset{a[0]} + multiset(rest)
    ensures multiset(a[1..]) == multiset(rest)
  {
    assert a == [a[0]] + a[1..];
    assert multiset(a[1..]) == multiset(a) - multiset{a[0]};
    assert multiset(rest) == multiset(b) - multiset{a[0]};
  }

  lemma {:induction false} RowsOfBag(a: seq<seq<Value>>, b: seq<seq<Value>>, reader: Reader)
    requires multiset(a) == multiset(b)
    ensures multiset(RowsOf(a, reader)) == multiset(RowsOf(b, reader))
    decreases |a|
  {
    if a == [] {
      assert |multiset(b)| == 0;
    } else {
      var j := IndexIn(b, a[0], multiset(a));
      TakenOut(b, j);
      SameRest(a, b[..j] + b[j + 1..], b);
      RowsOfBag(a[1..], b[..j] + b[j + 1..], reader);
      RowTakenOut(b, j, reader);
      RowTakenOut(a, 0, reader);
      assert a[..0] + a[1..] == a[1..];
    }
  }

  lemma {:induction false} IndexIn<T(!new)>(b: seq<T>, x: T, bag: multiset<T>) returns (j: nat)
    requires multiset(b) == bag && x in bag
    ensures j < |b| && b[j] == x
  {
    assert x in b;
    j :| j < |b| && b[j] == x;
  }

  lemma {:induction false} RowsOfCat(a: seq<seq<Value>>, b: seq<seq<Value>>, reader: Reader)
    ensures RowsOf(a + b, reader) == RowsOf(a, reader) + RowsOf(b, reader)
  {
  }

  lemma {:induction false} RowTakenOut(b: seq<seq<Value>>, j: nat, reader: Reader)
    requires j < |b|
    ensures multiset(RowsOf(b, reader)) == multiset{RowOf(b[j], reader)} + multiset(RowsOf(b[..j] + b[j + 1..], reader))
  {
    var head, tail := b[..j], b[j + 1..];
    assert b == head + ([b[j]] + tail);
    RowsOfCat(head, tail, reader);
    RowsOfCat(head, [b[j]] + tail, reader);
    RowsOfFirst(b[j], tail, reader);
    Inserted(RowsOf(head, reader), RowOf(b[j], reader), RowsOf(tail, reader));
  }

  lemma {:induction false} Inserted<T>(head: seq<T>, x: T, tail: seq<T>)
    ensures multiset(head + ([x] + tail)) == multiset{x} + multiset(head + tail)
  {
    assert multiset([x]) == multiset{x};
  }

  lemma {:induction false} RowsOfFirst(r: seq<Value>, tail: seq<seq<Value>>, reader: Reader)
    ensures RowsOf([r] + tail, reader) == [RowOf(r, reader)] + RowsOf(tail, reader)
  {
    assert ([r] + tail)[1..] == tail;
  }

  lemma {:induction false} WidthsOfBag(a: seq<seq<Value>>, b: seq<seq<Value>>, w: nat)
    requires multiset(a) == multiset(b)
    ensures SameWidth(a, w) ==> SameWidth(b, w)
  {
    forall i | 0 <= i < |b| && SameWidth(a, w)
      ensures |b[i]| == w
    {
      assert b[i] in multiset(b);
      assert b[i] in a;
    }
  }

  lemma {:induction false} KeyOfBag(a: seq<seq<Value>>, b: seq<seq<Value>>, reader: Reader, leq: Order)
    requires Total(leq) && multiset(a) == multiset(b)
    ensures RowsKey(a, reader, leq) == RowsKey(b, reader, leq) && |a| == |b|
  {
    assert |a| == |multiset(a)| == |multiset(b)| == |b|;
    RowsOfBag(a, b, reader);
    SortedInOrder(RowsOf(a, reader), leq);
    SortedInOrder(RowsOf(b, reader), leq);
    OrderUnique(RowsKey(a, reader, leq), RowsKey(b, reader, leq), leq);
  }

  /** The verdict does not change when the rows of either side are permuted. */
  lemma {:induction false} OrderOfRowsIsNothing(got: seq<seq<Value>>, got2: seq<seq<Value>>, gold: seq<seq<Value>>, gold2: seq<seq<Value>>,
                                               reader: Reader, leq: Order)
    requires Total(leq) && multiset(got) == multiset(got2) && multiset(gold) == multiset(gold2)
    ensures Judged(got, gold, reader, leq) == Judged(got2, gold2, reader, leq)
  {
    KeyOfBag(got, got2, reader, leq);
    KeyOfBag(gold, gold2, reader, leq);
    if gold != [] && |got| == |gold| {
      var w, w2 := |gold[0]|, |gold2[0]|;
      WidthsOfBag(gold, gold2, w);
      WidthsOfBag(gold2, gold, w2);
      WidthsOfBag(got, got2, w);
      WidthsOfBag(got2, got, w2);
    }
  }

  /** Sides with the same rows are equal, if there is a row and the rows are equally wide. */
  lemma {:induction false} SameRowsAreEqual(got: seq<seq<Value>>, gold: seq<seq<Value>>, reader: Reader, leq: Order)
    requires Total(leq) && multiset(got) == multiset(gold)
    ensures Judged(got, gold, reader, leq) == Equal <==> gold != [] && SameWidth(gold, |gold[0]|)
  {
    KeyOfBag(got, gold, reader, leq);
    if gold != [] {
      WidthsOfBag(gold, got, |gold[0]|);
      var key := RowsKey(gold, reader, leq);
      forall i, j | 0 <= i < |key| && 0 <= j < |key[i]|
        ensures Close(key[i][j], key[i][j])
      {
        CloseMeaning(key[i][j], key[i][j]);
      }
    }
  }

  /** A pairing within tolerance is not enough: two numbers a hair apart can sort the sides
      differently, and then rows are compared with the wrong partners. */
  lemma {:induction false} PairedButDifferent(reader: Reader, leq: Order, got: seq<seq<Value>>, gold: seq<seq<Value>>)
    requires got == [[Some("1.0"), Some("b")], [Some("1.001"), Some("a")]]
    requires gold == [[Some("1.0"), Some("a")], [Some("1.001"), Some("b")]]
    requires reader("1.0") == Some(1.0) && reader("1.001") == Some(1.001) && reader("a") == None && reader("b") == None
    requires leq([LO, Words("b")], [HI, Words("a")]) && leq([LO, Words("a")], [HI, Words("b")])
    ensures Judged(got, gold, reader, leq) == Different
    ensures Paired(RowsOf(got, reader), RowsOf(gold, reader), [0, 1], [1, 0])
  {
    PlainRows("b", "a", reader);
    PlainRows("a", "b", reader);
    HairApart(RowsOf(got, reader), RowsOf(gold, reader), leq);
  }

  lemma {:induction false} PlainRows(x: string, y: string, reader: Reader)
    requires reader("1.0") == Some(1.0) && reader("1.001") == Some(1.001) && reader(x) == None && reader(y) == None
    requires Plain(x) && Plain(y)
    ensures RowsOf([[Some("1.0"), Some(x)], [Some("1.001"), Some(y)]], reader) == [[LO, Words(x)], [HI, Words(y)]]
  {
    TwoRows("1.0", x, "1.001", y, reader);
    PlainText("1.0", reader);
    PlainText("1.001", reader);
    PlainText(x, reader);
    PlainText(y, reader);
  }

  const LO := Number(1.0)
  const HI := Number(1.001)

  lemma {:induction false} TwoRows(a: string, b: string, c: string, d: string, reader: Reader)
    ensures RowsOf([[Some(a), Some(b)], [Some(c), Some(d)]], reader)
      == [[CellOf(Some(a), reader), CellOf(Some(b), reader)], [CellOf(Some(c), reader), CellOf(Some(d), reader)]]
  {
    var rows := [[Some(a), Some(b)], [Some(c), Some(d)]];
    assert RowOf(rows[0], reader) == [CellOf(Some(a), reader), CellOf(Some(b), reader)];
    assert RowOf(rows[1], reader) == [CellOf(Some(c), reader), CellOf(Some(d), reader)];
  }

  lemma {:induction false} HairApart(a: seq<Row>, b: seq<Row>, leq: Order)
    requires a == [[LO, Words("b")], [HI, Words("a")]] && b == [[LO, Words("a")], [HI, Words("b")]]
    requires leq(a[0], a[1]) && leq(b[0], b[1])
    ensures !AllClose(Sorted(a, leq), Sorted(b, leq)) && Paired(a, b, [0, 1], [1, 0])
  {
    SortedPair(a, leq);
    SortedPair(b, leq);
    assert !Close(a[0][1], b[0][1]);
    assert Larger(Larger(1.0, 1.001), TINY) == 1.001;
    assert 0.001 / 1.001 <= TOLERANCE;
    assert Close(LO, HI);
    CloseMeaning(LO, HI);
    CloseMeaning(Words("a"), Words("a"));
    CloseMeaning(Words("b"), Words("b"));
    assert CloseRows(a[0], b[1]) && CloseRows(a[1], b[0]);
  }

  lemma {:induction false} SortedPair(rows: seq<Row>, leq: Order)
    requires |rows| == 2 && leq(rows[0], rows[1])
    ensures Sorted(rows, leq) == rows
  {
    assert rows[1..] == [rows[1]] && [rows[1]][1..] == [];
    assert Sorted(rows[1..], leq) == [rows[1]] + [];
    assert rows == [rows[0]] + [rows[1]];
  }

  /** No white space, per cent sign, comma or currency sign in it. */
  predicate Plain(s: string) {
    s != "" && forall i :: 0 <= i < |s| ==> !IsSpace(s[i]) && s[i] != '%' && s[i] != ',' && s[i] != '¥' && s[i] != '$'
  }

  lemma {:induction false} PlainText(s: string, reader: Reader)
    requires Plain(s)
    ensures CellOf(Some(s), reader) == if reader(s).Some? then Number(reader(s).value) else Words(s)
  {
    NoCommas(s);
    assert LStrip(s) == s && RStrip(s) == s;
  }

  lemma {:induction false} NoCommas(s: string)
    requires forall i :: 0 <= i < |s| ==> s[i] != ','
    ensures WithoutCommas(s) == s
  {
    if s != "" {
      NoCommas(s[1..]);
      assert s == [s[0]] + s[1..];
    }
  }
}
