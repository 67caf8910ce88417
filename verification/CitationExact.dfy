/** Citations, said of the bytes of a text: which bracketed stretches are tokens and which
    tokens stand together (crates/agent/src/answer_contract.rs:559-603). */
module CitationExact {
  import opened Text
  import opened References

  // ---------- ids ----------

  predicate IdByte(b: Byte) {
    && b.Lead?
    && (var u := b.ch as int;
        0x30 <= u <= 0x39 || 0x41 <= u <= 0x5A || 0x61 <= u <= 0x7A || b.ch in ":_-.")
  }

  /** ASCII letters, digits, and `:_-.` only; `F` in front, or `:F` somewhere. */
  predicate NamesFact(id: Text) {
    && (forall k :: 0 <= k < |id| ==> IdByte(id[k]))
    && ((|id| > 0 && id[0] == Lead('F')) || exists k :: 0 <= k < |id| - 1 && id[k] == Lead(':') && id[k + 1] == Lead('F'))
  }

  lemma {:induction false} IdTextIs(id: Text)
    ensures IdText(id) <==> forall k :: 0 <= k < |id| ==> IdByte(id[k])
  {
    if id != [] {
      IdTextIs(id[1..]);
      assert forall k :: 0 < k < |id| ==> id[k] == id[1..][k - 1];
      assert forall k :: 0 <= k < |id[1..]| ==> id[1..][k] == id[k + 1];
    }
  }

  lemma {:induction false} HasMarkIs(id: Text)
    ensures HasMark(id) <==> exists k :: 0 <= k < |id| - 1 && id[k] == Lead(':') && id[k + 1] == Lead('F')
  {
    if |id| >= 2 {
      HasMarkIs(id[1..]);
      if k :| 0 <= k < |id[1..]| - 1 && id[1..][k] == Lead(':') && id[1..][k + 1] == Lead('F') {
        assert id[k + 1] == Lead(':') && id[k + 1 + 1] == Lead('F');
      }
      if k :| 0 <= k < |id| - 1 && id[k] == Lead(':') && id[k + 1] == Lead('F') {
        if k > 0 {
          assert id[1..][k - 1] == Lead(':') && id[1..][k - 1 + 1] == Lead('F');
        }
      }
    }
  }

  lemma {:induction false} NamesFactIs(id: Text)
    ensures FactId(id) <==> NamesFact(id)
  {
    IdTextIs(id);
    HasMarkIs(id);
  }

  // ---------- brackets ----------

  datatype Pair = Pair(open: nat, close: nat)

  predicate NoneBetween(t: Text, i: nat, j: nat, c: char)
    requires j <= |t|
  {
    forall k :: i <= k < j ==> t[k] != Lead(c)
  }

  /** From byte `i` on each `[` is paired with the first `]` behind it, and the next `[` is
      looked for behind that; behind the last pair nothing is left to pair. */
  predicate PairsFrom(t: Text, i: nat, pairs: seq<Pair>)
    decreases |pairs|
  {
    if pairs == [] then
      i <= |t| && (NoneBetween(t, i, |t|, '[')
                   || exists a :: i <= a < |t| && t[a] == Lead('[') && NoneBetween(t, i, a, '[') && NoneBetween(t, a + 1, |t|, ']'))
    else
      var p := pairs[0];
      && i <= p.open < p.close < |t| && t[p.open] == Lead('[') && t[p.close] == Lead(']')
      && NoneBetween(t, i, p.open, '[') && NoneBetween(t, p.open + 1, p.close, ']')
      && PairsFrom(t, p.close + 1, pairs[1..])
  }

  /** The pairs that hold a fact id. */
  function Citing(t: Text, pairs: seq<Pair>): seq<Token>
    requires forall k :: 0 <= k < |pairs| ==> pairs[k].open < pairs[k].close < |t|
  {
    if pairs == [] then []
    else
      var id := t[pairs[0].open + 1..pairs[0].close];
      (if NamesFact(id) then [Token(id, pairs[0].open, pairs[0].close + 1)] else []) + Citing(t, pairs[1..])
  }

  lemma {:induction false} PairsInside(t: Text, i: nat, pairs: seq<Pair>)
    requires PairsFrom(t, i, pairs)
    ensures forall k :: 0 <= k < |pairs| ==> pairs[k].open < pairs[k].close < |t|
    decreases |pairs|
  {
    if pairs != [] {
      PairsInside(t, pairs[0].close + 1, pairs[1..]);
      assert forall k :: 0 < k < |pairs| ==> pairs[k] == pairs[1..][k - 1];
    }
  }

  lemma {:induction false} FirstFound(t: Text, i: nat, c: char)
    requires i <= |t|
    ensures NoneBetween(t, i, Find(t, i, c), c)
    decreases |t| - i
  {
    if i < |t| && t[i] != Lead(c) {
      FirstFound(t, i + 1, c);
    }
  }

  /** The next pair from byte `i` on, if there is one. */
  predicate NextPair(t: Text, i: nat, p: Pair) {
    && i <= p.open < p.close < |t| && t[p.open] == Lead('[') && t[p.close] == Lead(']')
    && NoneBetween(t, i, p.open, '[') && NoneBetween(t, p.open + 1, p.close, ']')
  }

  lemma {:induction false} PairFound(t: Text, i: nat) returns (found: bool, p: Pair)
    requires i <= |t|
    ensures if found then NextPair(t, i, p) && Tokens(t, i) == TokenAt(t, p.open, p.close) + Tokens(t, p.close + 1)
            else PairsFrom(t, i, []) && Tokens(t, i) == []
  {
    TokensFind(t, i);
    FirstFound(t, i, '[');
    var open := Find(t, i, '[');
    found, p := false, Pair(0, 0);
    if open < |t| {
      TokensInFind(t, open, open + 1);
      FirstFound(t, open + 1, ']');
      var close := Find(t, open + 1, ']');
      if close < |t| {
        found, p := true, Pair(open, close);
      }
    }
  }

  lemma {:induction false} TokensPairedFrom(t: Text, i: nat) returns (pairs: seq<Pair>)
    requires i <= |t|
    ensures PairsFrom(t, i, pairs)
    ensures forall k :: 0 <= k < |pairs| ==> pairs[k].open < pairs[k].close < |t|
    ensures Tokens(t, i) == Citing(t, pairs)
    decreases |t| - i
  {
    var found, p := PairFound(t, i);
    pairs := [];
    if found {
      var rest := TokensPairedFrom(t, p.close + 1);
      pairs := [p] + rest;
      PairFirst(t, i, p, rest);
    }
  }

  lemma {:induction false} PairFirst(t: Text, i: nat, p: Pair, rest: seq<Pair>)
    requires NextPair(t, i, p) && PairsFrom(t, p.close + 1, rest)
    ensures PairsFrom(t, i, [p] + rest)
    ensures forall k :: 0 <= k < |[p] + rest| ==> ([p] + rest)[k].open < ([p] + rest)[k].close < |t|
    ensures forall k :: 0 <= k < |rest| ==> rest[k].open < rest[k].close < |t|
    ensures Citing(t, [p] + rest) == TokenAt(t, p.open, p.close) + Citing(t, rest)
  {
    assert ([p] + rest)[1..] == rest;
    PairsInside(t, p.close + 1, rest);
    CitingFirst(t, p, rest);
  }

  lemma {:induction false} CitingFirst(t: Text, p: Pair, rest: seq<Pair>)
    requires p.open < p.close < |t| && forall k :: 0 <= k < |rest| ==> rest[k].open < rest[k].close < |t|
    ensures Citing(t, [p] + rest) == TokenAt(t, p.open, p.close) + Citing(t, rest)
  {
    assert ([p] + rest)[1..] == rest;
    NamesFactIs(t[p.open + 1..p.close]);
  }

  /** The tokens of a text are the bracket pairs that hold a fact id. */
  lemma {:induction false} TokensExact(t: Text) returns (pairs: seq<Pair>)
    ensures PairsFrom(t, 0, pairs)
    ensures forall k :: 0 <= k < |pairs| ==> pairs[k].open < pairs[k].close < |t|
    ensures Tokens(t, 0) == Citing(t, pairs)
  {
    pairs := TokensPairedFrom(t, 0);
  }

  // ---------- groups ----------

  /** Nothing but white space stands in bytes `a..b`. */
  predicate OnlyWhite(t: Text, a: nat, b: nat) {
    a <= b <= |t| && forall k :: a <= k < b && t[k].Lead? ==> IsSpace(t[k].ch)
  }

  lemma {:induction false} OnlyWhiteIs(t: Text, a: nat, b: nat)
    ensures Adjacent(t, a, b) <==> OnlyWhite(t, a, b)
  {
    if a <= b <= |t| {
      assert forall k :: 0 <= k < b - a ==> t[a..b][k] == t[a + k];
      assert forall k :: a <= k < b ==> t[k] == t[a..b][k - a];
    }
  }

  /** A group of a run of tokens: their ids, from the first's start to the last's end. */
  ghost predicate GroupOf(g: Group, run: seq<Token>) {
    && run != [] && |g.ids| == |run| && (forall k :: 0 <= k < |run| ==> g.ids[k] == run[k].id)
    && g.start == run[0].start && g.end == run[|run| - 1].end
  }

  ghost predicate Together(run: seq<Token>, t: Text) {
    forall k :: 0 <= k < |run| - 1 ==> OnlyWhite(t, run[k].end, run[k + 1].start)
  }

  /** Neighbours are in one group exactly if only white space stands between them. */
  lemma {:induction false} GroupsExact(toks: seq<Token>, t: Text) returns (runs: seq<seq<Token>>)
    ensures Flatten(runs) == toks && |GroupsOf(toks, t)| == |runs|
    ensures forall k :: 0 <= k < |runs| ==> GroupOf(GroupsOf(toks, t)[k], runs[k]) && Together(runs[k], t)
    ensures forall k :: 0 < k < |runs| ==> !OnlyWhite(t, GroupsOf(toks, t)[k - 1].end, GroupsOf(toks, t)[k].start)
  {
    runs := GroupsAreMaximalRuns(toks, t);
    forall k | 0 <= k < |runs|
      ensures GroupOf(GroupsOf(toks, t)[k], runs[k]) && Together(runs[k], t)
    {
      RunTogether(GroupsOf(toks, t)[k], runs[k], t);
    }
    forall k | 0 < k < |runs|
      ensures !OnlyWhite(t, GroupsOf(toks, t)[k - 1].end, GroupsOf(toks, t)[k].start)
    {
      OnlyWhiteIs(t, GroupsOf(toks, t)[k - 1].end, GroupsOf(toks, t)[k].start);
    }
  }

  lemma {:induction false} RunTogether(g: Group, run: seq<Token>, t: Text)
    requires Describes(g, run, t)
    ensures GroupOf(g, run) && Together(run, t)
  {
    forall k | 0 <= k < |run| - 1
      ensures OnlyWhite(t, run[k].end, run[k + 1].start)
    {
      OnlyWhiteIs(t, run[k].end, run[k + 1].start);
    }
  }
}
