/** The anchor test of a rewritten question: the longest run of Han characters that two
    texts share (crates/agent/src/ask.rs:1049-1068). */
module SharedRun {

  predicate Hanzi(c: char) { '\U{4e00}' <= c <= '\U{9fff}' }

  predicate Match(a: string, b: string, i: nat, j: nat, k: nat) {
    i + k < |a| && j + k < |b| && a[i + k] == b[j + k] && Hanzi(a[i + k])
  }

  /** `n` characters from `p` in `a` and from `q` in `b` are the same, and all Han. */
  predicate Shared(a: string, b: string, p: nat, q: nat, n: nat) {
    p + n <= |a| && q + n <= |b| && forall k: nat :: k < n ==> Match(a, b, p, q, k)
  }

  /** From U+4E00 to U+9FFF. */
  predicate Han(c: char) { 0x4E00 <= c as int <= 0x9FFF }

  /** That is: the two slices are equal and made of Han characters only. */
  lemma {:induction false} SharedIsSubstring(a: string, b: string, p: nat, q: nat, n: nat)
    ensures Shared(a, b, p, q, n) <==>
      p + n <= |a| && q + n <= |b| && a[p..p + n] == b[q..q + n] && forall c :: c in a[p..p + n] ==> Han(c)
  {
    if Shared(a, b, p, q, n) {
      var s, t := a[p..p + n], b[q..q + n];
      forall k: nat | k < n
        ensures s[k] == t[k] && Han(s[k])
      {
        assert Match(a, b, p, q, k);
      }
    } else if p + n <= |a| && q + n <= |b| {
      var k: nat :| k < n && !Match(a, b, p, q, k);
      assert a[p..p + n][k] == a[p + k] && b[q..q + n][k] == b[q + k];
      assert a[p..p + n][k] in a[p..p + n] && (Han(a[p + k]) <==> Hanzi(a[p + k]));
    }
  }

  /** The length of the longest shared run that ends before `i` in `a` and before `j` in `b`. */
  function Ending(a: string, b: string, i: nat, j: nat): (n: nat)
    requires i <= |a| && j <= |b|
    ensures n <= i && n <= j && Shared(a, b, i - n, j - n, n)
  {
    if i > 0 && j > 0 && Hanzi(a[i - 1]) && a[i - 1] == b[j - 1] then
      var n := Ending(a, b, i - 1, j - 1);
      assert Match(a, b, i - 1 - n, j - 1 - n, n);
      n + 1
    else 0
  }

  lemma {:induction false} EndingIsLongest(a: string, b: string, p: nat, q: nat, n: nat)
    requires Shared(a, b, p, q, n)
    ensures Ending(a, b, p + n, q + n) >= n
    decreases n
  {
    if n > 0 {
      assert Match(a, b, p, q, n - 1);
      EndingIsLongest(a, b, p, q, n - 1);
    }
  }

  ghost predicate RowBelow(a: string, b: string, i: nat, m: nat, best: nat)
    requires i <= |a| && m <= |b|
  {
    forall y: nat :: y <= m ==> Ending(a, b, i, y) <= best
  }

  ghost predicate RowsBelow(a: string, b: string, i: nat, best: nat)
    requires i <= |a|
  {
    forall x: nat :: x <= i ==> RowBelow(a, b, x, |b|, best)
  }

  ghost predicate Found(a: string, b: string, best: nat) {
    exists p: nat, q: nat :: Shared(a, b, p, q, best)
  }

  /** The one-row dynamic programme returns exactly the length of the longest shared run. */
  method LongestSharedHanziRun(a: string, b: string) returns (best: nat)
    ensures exists p: nat, q: nat :: Shared(a, b, p, q, best)
    ensures forall p: nat, q: nat, n: nat :: Shared(a, b, p, q, n) ==> n <= best
  {
    best := 0;
    var dp := new nat[|b| + 1](_ => 0);
    assert Shared(a, b, 0, 0, 0);
    for i := 1 to |a| + 1
      invariant forall y :: 0 <= y <= |b| ==> dp[y] == Ending(a, b, i - 1, y)
      invariant Found(a, b, best) && RowsBelow(a, b, i - 1, best)
    {
      ghost var before := best;
      best := NextRow(a, b, i, dp, best);
      forall x: nat | x < i
        ensures RowBelow(a, b, x, |b|, best)
      {
        assert RowBelow(a, b, x, |b|, before);
      }
    }
    forall p: nat, q: nat, n: nat | Shared(a, b, p, q, n)
      ensures n <= best
    {
      EndingIsLongest(a, b, p, q, n);
      assert RowBelow(a, b, p + n, |b|, best);
    }
  }

  /** The inner loop: the row of `i - 1` becomes the row of `i`, in place. */
  method NextRow(a: string, b: string, i: nat, dp: array<nat>, best0: nat) returns (best: nat)
    requires 1 <= i <= |a| && dp.Length == |b| + 1 && Found(a, b, best0)
    requires forall y :: 0 <= y <= |b| ==> dp[y] == Ending(a, b, i - 1, y)
    modifies dp
    ensures forall y :: 0 <= y <= |b| ==> dp[y] == Ending(a, b, i, y)
    ensures best >= best0 && Found(a, b, best) && RowBelow(a, b, i, |b|, best)
  {
    best := best0;
    var prev := 0;
    for j := 1 to |b| + 1
      invariant prev == Ending(a, b, i - 1, j - 1)
      invariant forall y :: 0 <= y < j ==> dp[y] == Ending(a, b, i, y)
      invariant forall y :: j <= y <= |b| ==> dp[y] == Ending(a, b, i - 1, y)
      invariant best >= best0 && Found(a, b, best) && RowBelow(a, b, i, j - 1, best)
    {
      var cur := dp[j];
      dp[j] := if Hanzi(a[i - 1]) && a[i - 1] == b[j - 1] then prev + 1 else 0;
      assert dp[j] == Ending(a, b, i, j);
      if dp[j] > best {
        best := dp[j];
        assert Shared(a, b, i - best, j - best, best);
      }
      prev := cur;
    }
  }
}
