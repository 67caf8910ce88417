/** Which stretches of a text are Chinese numerals, and what they become, said of its bytes
    (crates/agent/src/answer_contract.rs:737-817). */
module NumeralExact {
  import opened Text
  import opened Numerals
  import opened Claims
  import opened Ledger

  // ---------- runs ----------

  predicate NumeralChar(c: char) {
    c in "一二三四五六七八九" || c in "零〇两" || c in "十百千"
  }

  predicate NumeralAt(t: Text, i: nat) { i < |t| && t[i].Lead? && NumeralChar(t[i].ch) }

  /** Bytes `a..b` are whole numerals, and no numeral adjoins them. */
  ghost predicate NumeralRun(t: Text, a: nat, b: nat) {
    && NumeralAt(t, a) && a < b <= |t| && (forall k :: a <= k < b ==> t[k].Cont? || NumeralChar(t[k].ch))
    && (b < |t| ==> t[b].Lead? && !NumeralChar(t[b].ch))
    && Fresh(t, a)
  }

  /** No numeral ends where byte `a` starts. */
  ghost predicate Fresh(t: Text, a: nat) {
    a <= |t| && forall q :: 0 <= q < a && NumeralAt(t, q) ==> exists k :: q < k < a && t[k].Lead?
  }

  lemma {:induction false} NumeralIs(c: char)
    ensures IsNumeral(c) <==> NumeralChar(c)
  {
  }

  lemma {:induction false} NumeralByteIs(b: Byte)
    ensures NumeralByte(b) <==> b.Cont? || NumeralChar(b.ch)
  {
    if b.Lead? {
      NumeralIs(b.ch);
    }
  }

  lemma {:induction false} EndOfRun(t: Text, i: nat)
    requires i <= |t|
    ensures var j := RunEnd(t, i); forall k :: i <= k < j ==> t[k].Cont? || NumeralChar(t[k].ch)
    ensures var j := RunEnd(t, i); j < |t| ==> t[j].Lead? && !NumeralChar(t[j].ch)
    decreases |t| - i
  {
    if i < |t| {
      NumeralByteIs(t[i]);
      if NumeralByte(t[i]) {
        EndOfRun(t, i + 1);
      }
    }
  }

  lemma {:induction false} FreshNext(t: Text, i: nat)
    requires i < |t| && Fresh(t, i) && !NumeralAt(t, i)
    ensures Fresh(t, i + 1)
  {
    forall q | 0 <= q < i + 1 && NumeralAt(t, q)
      ensures exists k :: q < k < i + 1 && t[k].Lead?
    {
      var k :| q < k < i && t[k].Lead?;
      assert k < i + 1;
    }
  }

  lemma {:induction false} FreshBehind(t: Text, j: nat)
    requires j < |t| && t[j].Lead? && !NumeralChar(t[j].ch)
    ensures Fresh(t, j + 1)
  {
    forall q | 0 <= q < j + 1 && NumeralAt(t, q)
      ensures exists k :: q < k < j + 1 && t[k].Lead?
    {
      assert q < j < j + 1 && t[j].Lead?;
    }
  }

  lemma {:induction false} RunStops(t: Text, a: nat, b: nat)
    requires NumeralRun(t, a, b)
    ensures b < |t| ==> t[b].Lead? && !NumeralChar(t[b].ch)
  {
  }

  lemma {:induction false} OneRun(t: Text, a: nat, b: nat, c: nat, d: nat)
    requires NumeralRun(t, a, b) && NumeralRun(t, c, d) && a <= c < b
    ensures a == c && b == d
  {
    if a < c {
      NumeralBefore(t, a, c);
    }
    RunStops(t, a, b);
    RunStops(t, c, d);
  }

  /** Inside a run a numeral ends where the next one starts. */
  lemma {:induction false} NumeralBefore(t: Text, a: nat, c: nat)
    requires a < c <= |t| && NumeralAt(t, a) && forall k :: a <= k < c ==> t[k].Cont? || NumeralChar(t[k].ch)
    ensures !Fresh(t, c)
    decreases c - a
  {
    if k :| a < k < c && t[k].Lead? {
      NumeralBefore(t, k, c);
    } else {
      assert NumeralAt(t, a) && forall k :: a < k < c ==> !t[k].Lead?;
    }
  }

  /** From byte `i` on. */
  lemma {:induction false} RunsFromExact(t: Text, i: nat, keep: Keep, r: Run)
    requires i <= |t| && (i < |t| && NumeralAt(t, i) ==> Fresh(t, i)) && Fresh(t, i)
    ensures r in Runs(t, i, keep) <==> i <= r.start && NumeralRun(t, r.start, r.stop) && keep(t, r.start, r.stop)
    decreases |t| - i
  {
    if i < |t| {
      if t[i].Lead? {
        NumeralIs(t[i].ch);
      }
      if NumeralAt(t, i) {
        RunHere(t, i, keep, r);
      } else {
        FreshNext(t, i);
        RunsFromExact(t, i + 1, keep, r);
      }
    }
  }

  lemma {:induction false} RunHere(t: Text, i: nat, keep: Keep, r: Run)
    requires i < |t| && NumeralAt(t, i) && Fresh(t, i) && IsNumeral(t[i].ch)
    ensures r in Runs(t, i, keep) <==> i <= r.start && NumeralRun(t, r.start, r.stop) && keep(t, r.start, r.stop)
    decreases |t| - i - 1
  {
    var j := RunEnd(t, i + 1);
    OnlyRunHere(t, i, j, r);
    if j < |t| {
      NumeralIs(t[j].ch);
      FreshBehind(t, j);
      RunsFromExact(t, j + 1, keep, r);
      NoRunAt(t, j, keep, r);
    }
    RunsSplit(t, i, j, keep, r);
  }

  /** The run that starts at byte `i`, and no other before its end. */
  lemma {:induction false} OnlyRunHere(t: Text, i: nat, j: nat, r: Run)
    requires i < |t| && NumeralAt(t, i) && Fresh(t, i) && j == RunEnd(t, i + 1)
    ensures i < j <= |t| && (j < |t| ==> t[j].Lead? && !NumeralChar(t[j].ch))
    ensures i <= r.start < j && NumeralRun(t, r.start, r.stop) <==> r == Run(i, j)
    ensures NumeralRun(t, r.start, r.stop) ==> r.start < |t|
  {
    EndOfRun(t, i + 1);
    assert NumeralRun(t, i, j);
    if i <= r.start < j && NumeralRun(t, r.start, r.stop) {
      OneRun(t, i, j, r.start, r.stop);
    }
  }

  lemma {:induction false} NoRunAt(t: Text, j: nat, keep: Keep, r: Run)
    requires j < |t| && t[j].Lead? && !NumeralChar(t[j].ch) && !IsNumeral(t[j].ch)
    ensures Runs(t, j, keep) == Runs(t, j + 1, keep)
    ensures NumeralRun(t, r.start, r.stop) ==> r.start != j
  {
  }

  lemma {:induction false} RunsSplit(t: Text, i: nat, j: nat, keep: Keep, r: Run)
    requires i < |t| && t[i].Lead? && IsNumeral(t[i].ch) && j == RunEnd(t, i + 1)
    ensures r in Runs(t, i, keep) <==> (r == Run(i, j) && keep(t, i, j)) || r in Runs(t, j, keep)
  {
  }

  /** The runs read are the stretches of numerals as long as they go, where the context
      counts them. */
  lemma {:induction false} RunsExact(t: Text, keep: Keep, r: Run)
    ensures r in Runs(t, 0, keep) <==> NumeralRun(t, r.start, r.stop) && keep(t, r.start, r.stop)
  {
    RunsFromExact(t, 0, keep, r);
  }

  // ---------- what becomes of them ----------

  /** `u` is `run` with 〇 written 零. */
  predicate OneZero(run: Text, u: Text) {
    |u| == |run| && forall k :: 0 <= k < |run| ==> u[k] == if run[k] == Lead('〇') then Lead('零') else run[k]
  }

  /** `ds` are the digits of `w`, without a zero in front. */
  predicate Prints(ds: Text, w: nat) {
    && ds != [] && (forall k :: 0 <= k < |ds| ==> ds[k].Lead? && '0' <= ds[k].ch <= '9')
    && (|ds| > 1 ==> ds[0] != Lead('0')) && Mantissa(ds, 0) == w
  }

  /** The run becomes `out`: blanks and the digits of its worth, or what it was if it has none
      or the digits do not fit. */
  ghost predicate Becomes(run: Text, cn: Worth, out: Text) {
    exists u :: OneZero(run, u) &&
      match cn(u)
      case None => out == run
      case Some(w) => exists ds :: Prints(ds, w) && out == if |ds| > |run| then run else Spaces(|run| - |ds|) + ds
  }

  lemma {:induction false} DecimalPrints(w: nat)
    ensures Prints(Decimal(w), w)
  {
    DecimalDigits(w);
    DecimalReads(w);
    NoZeroInFront(w);
    assert forall k :: 0 <= k < |Decimal(w)| ==> Decimal(w)[k].Lead? && IsDigit(Decimal(w)[k].ch);
  }

  lemma {:induction false} NoZeroInFront(w: nat)
    ensures w > 0 ==> Decimal(w)[0] != Lead('0')
    ensures w == 0 ==> |Decimal(w)| == 1
  {
    if w >= 10 {
      NoZeroInFront(w / 10);
      assert Decimal(w)[0] == Decimal(w / 10)[0];
    }
  }

  lemma {:induction false} ReplacementBecomes(t: Text, r: Run, cn: Worth)
    requires r.start <= r.stop <= |t|
    ensures Becomes(t[r.start..r.stop], cn, if Replacement(t, r, cn).Some? then Replacement(t, r, cn).value else t[r.start..r.stop])
  {
    var run := t[r.start..r.stop];
    assert OneZero(run, Zeros(run));
    match cn(Zeros(run))
    case None =>
    case Some(w) => DecimalPrints(w);
  }

  /** Every run of the rewritten text is what its run becomes. */
  lemma {:induction false} RunsBecome(t: Text, keep: Keep, cn: Worth, r: Run)
    requires r in Runs(t, 0, keep)
    ensures r.start <= r.stop <= |t| && Becomes(t[r.start..r.stop], cn, Normalized(t, keep, cn)[r.start..r.stop])
  {
    RunsOrdered(t, 0, keep);
    var k :| 0 <= k < |Runs(t, 0, keep)| && Runs(t, 0, keep)[k] == r;
    RunReads(t, Runs(t, 0, keep), 0, cn, k);
    ReplacementBecomes(t, r, cn);
  }
}
