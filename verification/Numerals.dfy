/** Rewriting Chinese numerals to decimal digits without moving any byte
    (crates/agent/src/answer_contract.rs:737-817).

    Which runs count as numerals in context (`Runs`' parameter `keep`: a registered unit
    follows and the neighbours are right) and what a numeral is worth (`cn`, the
    kernel's `cn_num`) are parameters: everything here holds for every choice of them. */
module Numerals {
  import opened Text

  datatype Run = Run(start: nat, stop: nat)

  type Keep = (Text, nat, nat) -> bool
  type Worth = Text -> Option<nat>

  predicate IsNumeral(c: char) {
    c in "零〇一二两三四五六七八九十百千"
  }

  /** A byte of a numeral, once inside a run. */
  predicate NumeralByte(b: Byte) {
    b.Cont? || IsNumeral(b.ch)
  }

  /** Where the run of numerals through byte `i` stops. */
  function RunEnd(t: Text, i: nat): (j: nat)
    requires i <= |t|
    ensures i <= j <= |t|
    decreases |t| - i
  {
    if i < |t| && NumeralByte(t[i]) then RunEnd(t, i + 1) else i
  }

  /** `extract_chinese_number_claims` from byte `i` on. */
  function Runs(t: Text, i: nat, keep: Keep): seq<Run>
    requires i <= |t|
    decreases |t| - i
  {
    if i == |t| then []
    else if t[i].Lead? && IsNumeral(t[i].ch) then
      var j := RunEnd(t, i + 1);
      (if keep(t, i, j) then [Run(i, j)] else []) + Runs(t, j, keep)
    else Runs(t, i + 1, keep)
  }

  method ExtractChineseNumberClaims(text: Text, keep: Keep) returns (out: seq<Run>)
    ensures out == Runs(text, 0, keep)
  {
    out := [];
    var i := 0;
    while i < |text|
      invariant i <= |text|
      invariant out + Runs(text, i, keep) == Runs(text, 0, keep)
    {
      if !(text[i].Lead? && IsNumeral(text[i].ch)) {
        i := i + 1;
        continue;
      }
      var start := i;
      i := i + 1;
      while i < |text| && NumeralByte(text[i])
        invariant start < i <= |text|
        invariant RunEnd(text, i) == RunEnd(text, start + 1)
      {
        i := i + 1;
      }
      var found := if keep(text, start, i) then [Run(start, i)] else [];
      Regroup(out, found, Runs(text, i, keep));
      out := out + found;
    }
    assert out + [] == out;
  }

  lemma {:induction false} Regroup(a: seq<Run>, b: seq<Run>, c: seq<Run>)
    ensures a + (b + c) == (a + b) + c
  {
  }

  /** Runs follow one another with a gap, and consist of whole numeral characters. */
  ghost predicate RunsIn(runs: seq<Run>, t: Text, lo: nat) {
    runs == [] || (RunIn(runs[0], t, lo) && RunsIn(runs[1..], t, runs[0].stop + 1))
  }

  ghost predicate RunIn(r: Run, t: Text, lo: nat) {
    && lo <= r.start < r.stop <= |t|
    && t[r.start].Lead?
    && Boundary(t, r.stop)
    && forall i :: r.start <= i < r.stop ==> NumeralByte(t[i])
  }

  lemma {:induction false} RunEndRun(t: Text, i: nat)
    requires i <= |t|
    ensures forall k :: i <= k < RunEnd(t, i) ==> NumeralByte(t[k])
    ensures RunEnd(t, i) < |t| ==> !NumeralByte(t[RunEnd(t, i)])
    decreases |t| - i
  {
    if i < |t| && NumeralByte(t[i]) {
      RunEndRun(t, i + 1);
    }
  }

  lemma {:induction false} RunsInWeaken(runs: seq<Run>, t: Text, lo: nat, hi: nat)
    requires RunsIn(runs, t, hi) && lo <= hi
    ensures RunsIn(runs, t, lo)
  {
  }

  lemma {:induction false} RunsOrdered(t: Text, i: nat, keep: Keep)
    requires i <= |t|
    ensures RunsIn(Runs(t, i, keep), t, i)
    decreases |t| - i
  {
    if i < |t| {
      if t[i].Lead? && IsNumeral(t[i].ch) {
        var j := RunEnd(t, i + 1);
        RunEndRun(t, i + 1);
        RunsOrdered(t, j, keep);
        if j < |t| {
          RunsOrdered(t, j + 1, keep);
          assert Runs(t, j, keep) == Runs(t, j + 1, keep);
        }
        var rest := Runs(t, j, keep);
        if keep(t, i, j) {
          assert ([Run(i, j)] + rest)[1..] == rest;
        } else {
          assert [] + rest == rest;
          RunsInWeaken(rest, t, i, j);
        }
      } else {
        RunsOrdered(t, i + 1, keep);
        RunsInWeaken(Runs(t, i + 1, keep), t, i, i + 1);
      }
    }
  }

  // ---------- the rewrite ----------

  function DigitByte(d: nat): Byte
    requires d < 10
  {
    Lead(('0' as int + d) as char)
  }

  /** `n.to_string()`. */
  function Decimal(n: nat): (t: Text)
    ensures t != []
  {
    if n < 10 then [DigitByte(n)] else Decimal(n / 10) + [DigitByte(n % 10)]
  }

  predicate Digits(t: Text) {
    forall k :: 0 <= k < |t| ==> t[k].Lead? && IsDigit(t[k].ch)
  }

  lemma {:induction false} DecimalDigits(n: nat)
    ensures Digits(Decimal(n))
  {
    if n >= 10 {
      DecimalDigits(n / 10);
    }
  }

  function Spaces(n: nat): (t: Text)
    ensures |t| == n
  {
    seq(n, _ => SPACE)
  }

  /** `run.replace('〇', "零")`. */
  function Zeros(run: Text): (r: Text)
    ensures |r| == |run|
  {
    seq(|run|, i requires 0 <= i < |run| => if run[i] == Lead('〇') then Lead('零') else run[i])
  }

  /** The bytes that take the place of a run: digits, padded on the left to the same
      width. `None` if the run has no known worth or its digits do not fit. */
  function Replacement(t: Text, r: Run, cn: Worth): (rep: Option<Text>)
    requires r.start <= r.stop <= |t|
    ensures rep.Some? ==> |rep.value| == r.stop - r.start
  {
    var run := t[r.start..r.stop];
    match cn(Zeros(run))
    case None => None
    case Some(n) =>
      var digits := Decimal(n);
      if |digits| > |run| then None else Some(Spaces(|run| - |digits|) + digits)
  }

  /** `out.replace_range(r, rep)` when the run has a replacement. */
  function Rewrite(out: Text, t: Text, r: Run, cn: Worth): (o: Text)
    requires |out| == |t| && r.start <= r.stop <= |t|
    ensures |o| == |t|
  {
    match Replacement(t, r, cn)
    case None => out
    case Some(rep) => out[..r.start] + rep + out[r.stop..]
  }

  /** All runs rewritten, the last one first. */
  function RewriteAll(t: Text, runs: seq<Run>, lo: nat, cn: Worth): (o: Text)
    requires RunsIn(runs, t, lo)
    ensures |o| == |t|
    decreases |runs|
  {
    if runs == [] then t
    else Rewrite(RewriteAll(t, runs[1..], runs[0].stop + 1, cn), t, runs[0], cn)
  }

  function Normalized(t: Text, keep: Keep, cn: Worth): (o: Text)
    ensures |o| == |t|
  {
    RunsOrdered(t, 0, keep);
    RewriteAll(t, Runs(t, 0, keep), 0, cn)
  }

  /** Every kept run has a replacement. */
  ghost predicate AllWorth(t: Text, keep: Keep, cn: Worth) {
    RunsOrdered(t, 0, keep);
    AllReplaced(t, Runs(t, 0, keep), 0, cn)
  }

  ghost predicate AllReplaced(t: Text, runs: seq<Run>, lo: nat, cn: Worth)
    requires RunsIn(runs, t, lo)
    decreases |runs|
  {
    runs == [] ||
    (Replacement(t, runs[0], cn).Some? && AllReplaced(t, runs[1..], runs[0].stop + 1, cn))
  }

  /** The in-place rewrite. The byte length can never change, so the length guard of the
      source never fires, whatever `cn` answers. */
  method NormalizeChineseNumerals(masked: Text, keep: Keep, cn: Worth)
    returns (out: Text, unparsed: seq<Run>)
    ensures out == Normalized(masked, keep, cn)
    ensures unparsed == [] <==> AllWorth(masked, keep, cn)
  {
    out := masked;
    unparsed := [];
    var claims := ExtractChineseNumberClaims(masked, keep);
    RunsOrdered(masked, 0, keep);
    var k := |claims|;
    ghost var lo := RunsDrop(claims, masked, 0, k);
    assert claims[k..] == [];
    while k > 0
      invariant k <= |claims|
      invariant RunsIn(claims[k..], masked, lo)
      invariant lo == Low(claims, k)
      invariant out == RewriteAll(masked, claims[k..], lo, cn)
      invariant unparsed == [] <==> AllReplaced(masked, claims[k..], lo, cn)
    {
      k := k - 1;
      var r := claims[k];
      lo := RunsDrop(claims, masked, 0, k);
      assert claims[k..][0] == r && claims[k..][1..] == claims[k + 1..];
      var read;
      out, read := ReplaceRange(out, masked, r, cn);
      if !read {
        unparsed := unparsed + [r];
      }
    }
    assert claims[0..] == claims;
    if |out| != |masked| {
      assert false;
    }
  }

  /** One run, if it has a replacement. */
  method ReplaceRange(text: Text, masked: Text, r: Run, cn: Worth) returns (out: Text, read: bool)
    requires |text| == |masked| && r.start <= r.stop <= |masked|
    ensures out == Rewrite(text, masked, r, cn) && read == Replacement(masked, r, cn).Some?
  {
    var rep := Replacement(masked, r, cn);
    if rep.None? { return text, false; }
    return text[..r.start] + rep.value + text[r.stop..], true;
  }

  ghost function Low(runs: seq<Run>, k: nat): nat
    requires k <= |runs|
  {
    if k == 0 then 0 else runs[k - 1].stop + 1
  }

  lemma {:induction false} RunsDrop(runs: seq<Run>, t: Text, lo: nat, k: nat) returns (low: nat)
    requires RunsIn(runs, t, lo) && k <= |runs|
    ensures low == if k == 0 then lo else runs[k - 1].stop + 1
    ensures RunsIn(runs[k..], t, low)
    ensures k > 0 ==> RunIn(runs[k - 1], t, if k == 1 then lo else runs[k - 2].stop + 1)
    decreases k
  {
    if k == 0 {
      low := lo;
      assert runs[0..] == runs;
    } else {
      low := RunsDrop(runs[1..], t, runs[0].stop + 1, k - 1);
      assert runs[1..][k - 1..] == runs[k..];
    }
  }

  // ---------- what the rewrite changes ----------

  /** Only bytes of numerals change, and they become blanks and digits. */
  ghost predicate Stable(before: Text, after: Text) {
    && |before| == |after|
    && forall i :: 0 <= i < |before| ==> StableAt(before[i], after[i])
  }

  ghost predicate StableAt(b: Byte, a: Byte) {
    a == b || (NumeralByte(b) && (a == SPACE || (a.Lead? && IsDigit(a.ch))))
  }

  lemma {:induction false} ReplacementBytes(t: Text, r: Run, cn: Worth)
    requires r.start <= r.stop <= |t| && Replacement(t, r, cn).Some?
    ensures forall k :: 0 <= k < r.stop - r.start ==>
              var b := Replacement(t, r, cn).value[k]; b == SPACE || (b.Lead? && IsDigit(b.ch))
  {
    var n := cn(Zeros(t[r.start..r.stop])).value;
    DecimalDigits(n);
  }

  lemma {:induction false} RewriteStable(out: Text, t: Text, r: Run, lo: nat, cn: Worth)
    requires RunIn(r, t, lo) && Stable(t, out)
    requires forall i :: r.start <= i < r.stop ==> out[i] == t[i]
    ensures Stable(t, Rewrite(out, t, r, cn))
    ensures forall i :: 0 <= i < r.start ==> Rewrite(out, t, r, cn)[i] == out[i]
  {
    if Replacement(t, r, cn).Some? {
      ReplacementBytes(t, r, cn);
    }
  }

  lemma {:induction false} RewriteAllStable(t: Text, runs: seq<Run>, lo: nat, cn: Worth)
    requires RunsIn(runs, t, lo)
    ensures Stable(t, RewriteAll(t, runs, lo, cn))
    ensures forall i :: 0 <= i < lo && i < |t| ==> RewriteAll(t, runs, lo, cn)[i] == t[i]
    decreases |runs|
  {
    if runs != [] {
      RewriteAllStable(t, runs[1..], runs[0].stop + 1, cn);
      RewriteStable(RewriteAll(t, runs[1..], runs[0].stop + 1, cn), t, runs[0], lo, cn);
    }
  }

  lemma {:induction false} AsciiUtf8(t: Text)
    requires forall k :: 0 <= k < |t| ==> t[k] == SPACE || (t[k].Lead? && IsDigit(t[k].ch))
    ensures Utf8(t)
  {
    forall i: nat | i < |t| && t[i].Lead?
      ensures Whole(t, i)
    {
      assert Width(t[i].ch) == 1;
    }
  }

  lemma {:induction false} RewriteUtf8(out: Text, t: Text, r: Run, cn: Worth)
    requires |out| == |t| && r.start <= r.stop <= |t|
    requires Utf8(out) && Boundary(out, r.start) && Boundary(out, r.stop)
    ensures Utf8(Rewrite(out, t, r, cn))
  {
    if Replacement(t, r, cn).Some? {
      var rep := Replacement(t, r, cn).value;
      ReplacementBytes(t, r, cn);
      AsciiUtf8(rep);
      SliceUtf8(out, 0, r.start);
      SliceUtf8(out, r.stop, |out|);
      assert out[0..r.start] == out[..r.start] && out[r.stop..|out|] == out[r.stop..];
      ConcatUtf8(out[..r.start], rep);
      ConcatUtf8(out[..r.start] + rep, out[r.stop..]);
    }
  }

  lemma {:induction false} RewriteAllUtf8(t: Text, runs: seq<Run>, lo: nat, cn: Worth)
    requires RunsIn(runs, t, lo) && Utf8(t)
    ensures Utf8(RewriteAll(t, runs, lo, cn))
    decreases |runs|
  {
    if runs != [] {
      var r := runs[0];
      RewriteAllUtf8(t, runs[1..], r.stop + 1, cn);
      RewriteAllStable(t, runs[1..], r.stop + 1, cn);
      RewriteUtf8(RewriteAll(t, runs[1..], r.stop + 1, cn), t, r, cn);
    }
  }

  /** Offset stability: same length, still valid UTF-8, only numeral bytes change, and
      every character boundary stays one. */
  lemma {:induction false} OffsetsStable(t: Text, keep: Keep, cn: Worth)
    requires Utf8(t)
    ensures Utf8(Normalized(t, keep, cn))
    ensures Stable(t, Normalized(t, keep, cn))
    ensures forall i: nat :: i <= |t| && Boundary(t, i) ==> Boundary(Normalized(t, keep, cn), i)
  {
    RunsOrdered(t, 0, keep);
    RewriteAllUtf8(t, Runs(t, 0, keep), 0, cn);
    RewriteAllStable(t, Runs(t, 0, keep), 0, cn);
    var n := Normalized(t, keep, cn);
    forall i: nat | i <= |t| && Boundary(t, i)
      ensures Boundary(n, i)
    {
      if i < |t| {
        assert StableAt(t[i], n[i]);
      }
    }
  }

  lemma {:induction false} RewriteReads(out: Text, t: Text, r: Run, cn: Worth)
    requires |out| == |t| && r.start <= r.stop <= |t|
    ensures Rewrite(out, t, r, cn)[..r.start] == out[..r.start]
    ensures Rewrite(out, t, r, cn)[r.stop..] == out[r.stop..]
    ensures Rewrite(out, t, r, cn)[r.start..r.stop] ==
      match Replacement(t, r, cn) { case None => out[r.start..r.stop] case Some(rep) => rep }
  {
  }

  lemma {:induction false} SliceOfTail(a: Text, b: Text, k: nat, i: nat, j: nat)
    requires k <= i <= j <= |a| == |b| && a[k..] == b[k..]
    ensures a[i..j] == b[i..j]
  {
    forall p | i <= p < j
      ensures a[p] == b[p]
    {
      assert a[p] == a[k..][p - k] && b[p] == b[k..][p - k];
    }
  }

  /** Run by run, the rewritten text reads the replacement, or the run as it was. */
  lemma {:induction false} RunReads(t: Text, runs: seq<Run>, lo: nat, cn: Worth, k: nat)
    requires RunsIn(runs, t, lo) && k < |runs|
    ensures lo <= runs[k].start < runs[k].stop <= |t|
    ensures RewriteAll(t, runs, lo, cn)[runs[k].start..runs[k].stop] ==
      match Replacement(t, runs[k], cn)
      case None => t[runs[k].start..runs[k].stop]
      case Some(rep) => rep
    decreases |runs|
  {
    var r := runs[0];
    var rest := RewriteAll(t, runs[1..], r.stop + 1, cn);
    RewriteReads(rest, t, r, cn);
    if k == 0 {
      FirstRunReads(t, r, runs[1..], cn);
    } else {
      assert runs[k] == runs[1..][k - 1];
      RunReads(t, runs[1..], r.stop + 1, cn, k - 1);
      SliceOfTail(Rewrite(rest, t, r, cn), rest, r.stop, runs[k].start, runs[k].stop);
    }
  }

  lemma {:induction false} FirstRunReads(t: Text, r: Run, later: seq<Run>, cn: Worth)
    requires r.start <= r.stop < |t| + 1 && RunsIn(later, t, r.stop + 1)
    ensures Rewrite(RewriteAll(t, later, r.stop + 1, cn), t, r, cn)[r.start..r.stop] ==
      match Replacement(t, r, cn) { case None => t[r.start..r.stop] case Some(rep) => rep }
  {
    var rest := RewriteAll(t, later, r.stop + 1, cn);
    RewriteAllStable(t, later, r.stop + 1, cn);
    SameStretch(rest, t, r.start, r.stop);
    RewriteReads(rest, t, r, cn);
  }

  lemma {:induction false} SameStretch(a: Text, b: Text, i: nat, j: nat)
    requires i <= j <= |a| == |b| && forall k :: 0 <= k < j ==> a[k] == b[k]
    ensures a[i..j] == b[i..j]
  {
  }
}
