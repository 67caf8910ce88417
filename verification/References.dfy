/** Citation tokens `[Q:F001]`: finding them, grouping them, masking them and
    stripping them (crates/agent/src/answer_contract.rs:559-630). */
module References {
  import opened Text

  datatype Token = Token(id: Text, start: nat, end: nat)

  datatype Group = Group(ids: seq<Text>, start: nat, end: nat)

  // ---------- what a citation token is ----------

  predicate IdChar(c: char) {
    IsAlnum(c) || c == ':' || c == '_' || c == '-' || c == '.'
  }

  /** Only allowed characters; they are ASCII, so every byte of an id starts a character. */
  predicate IdText(id: Text) {
    id == [] || (id[0].Lead? && IdChar(id[0].ch) && IdText(id[1..]))
  }

  /** `id.contains(":F")`. */
  predicate HasMark(id: Text) {
    |id| >= 2 && ((id[0] == Lead(':') && id[1] == Lead('F')) || HasMark(id[1..]))
  }

  /** `looks_like_fact_id`. */
  predicate FactId(id: Text) {
    (Is(id, 0, 'F') || HasMark(id)) && IdText(id)
  }

  lemma {:induction false} IdTextAt(id: Text, i: nat)
    requires IdText(id) && i < |id|
    ensures id[i].Lead? && IdChar(id[i].ch)
  {
    if i > 0 {
      IdTextAt(id[1..], i - 1);
    }
  }

  const OPEN: Byte := Lead('[')
  const CLOSE: Byte := Lead(']')

  /** What the bracket pair at bytes `open` and `close` contributes. */
  function TokenAt(t: Text, open: nat, close: nat): seq<Token>
    requires open < close < |t|
  {
    var id := t[open + 1..close];
    if FactId(id) then [Token(id, open, close + 1)] else []
  }

  /** All tokens from byte `i` on: a `[` opens, the first `]` after it closes. */
  function Tokens(t: Text, i: nat): seq<Token>
    requires i <= |t|
    decreases |t| - i
  {
    if i == |t| then []
    else if t[i] == OPEN then TokensIn(t, i, i + 1)
    else Tokens(t, i + 1)
  }

  /** The same, with a `[` open at byte `open` and no `]` before byte `j`. */
  function TokensIn(t: Text, open: nat, j: nat): seq<Token>
    requires open < j <= |t|
    decreases |t| - j
  {
    if j == |t| then []
    else if t[j] == CLOSE then TokenAt(t, open, j) + Tokens(t, j + 1)
    else TokensIn(t, open, j + 1)
  }

  lemma {:induction false} TokensFind(t: Text, i: nat)
    requires i <= |t|
    ensures var open := Find(t, i, '[');
      Tokens(t, i) == if open == |t| then [] else TokensIn(t, open, open + 1)
    decreases |t| - i
  {
    if i < |t| && t[i] != OPEN {
      TokensFind(t, i + 1);
    }
  }

  lemma {:induction false} TokensInFind(t: Text, open: nat, j: nat)
    requires open < j <= |t|
    ensures var close := Find(t, j, ']');
      TokensIn(t, open, j) == if close == |t| then [] else TokenAt(t, open, close) + Tokens(t, close + 1)
    decreases |t| - j
  {
    if j < |t| && t[j] != CLOSE {
      TokensInFind(t, open, j + 1);
    }
  }

  method ReferenceTokens(text: Text) returns (out: seq<Token>)
    ensures out == Tokens(text, 0)
  {
    out := [];
    var cursor := 0;
    while true
      invariant cursor <= |text|
      invariant out + Tokens(text, cursor) == Tokens(text, 0)
      decreases |text| - cursor
    {
      TokensFind(text, cursor);
      var open := Find(text, cursor, '[');
      if open == |text| { return; }
      TokensInFind(text, open, open + 1);
      var close := Find(text, open + 1, ']');
      if close == |text| { return; }
      var found := TokenAt(text, open, close);
      Regroup(out, found, Tokens(text, close + 1));
      out := out + found;
      cursor := close + 1;
    }
  }

  lemma {:induction false} Regroup(a: seq<Token>, b: seq<Token>, c: seq<Token>)
    ensures a + (b + c) == (a + b) + c
  {
  }

  /** Tokens lie in bytes `lo..n`, are at least three bytes long, and follow one another. */
  ghost predicate Spread(toks: seq<Token>, lo: nat, n: nat) {
    toks == [] || (lo <= toks[0].start && toks[0].start + 3 <= toks[0].end <= n && Spread(toks[1..], toks[0].end, n))
  }

  lemma {:induction false} SpreadBounds(toks: seq<Token>, lo: nat, n: nat)
    requires Spread(toks, lo, n)
    ensures forall k :: 0 <= k < |toks| ==> lo <= toks[k].start && toks[k].start + 3 <= toks[k].end <= n
  {
    if toks != [] {
      SpreadBounds(toks[1..], toks[0].end, n);
    }
  }

  lemma {:induction false} SpreadPair(toks: seq<Token>, lo: nat, n: nat, j: nat, k: nat)
    requires Spread(toks, lo, n) && j < k < |toks|
    ensures toks[j].end <= toks[k].start
  {
    if j == 0 {
      SpreadBounds(toks[1..], toks[0].end, n);
      assert toks[k] == toks[1..][k - 1];
    } else {
      SpreadPair(toks[1..], toks[0].end, n, j - 1, k - 1);
    }
  }

  lemma {:induction false} SpreadInit(toks: seq<Token>, lo: nat, n: nat)
    requires Spread(toks, lo, n) && toks != []
    ensures Spread(toks[..|toks| - 1], lo, n)
  {
    if |toks| > 1 {
      SpreadInit(toks[1..], toks[0].end, n);
      assert toks[..|toks| - 1][1..] == toks[1..][..|toks| - 2];
    }
  }

  lemma {:induction false} SpreadWeaken(toks: seq<Token>, lo: nat, hi: nat, n: nat)
    requires Spread(toks, hi, n) && lo <= hi
    ensures Spread(toks, lo, n)
  {
  }

  /** The text reads literally `[id]` at each token, and `id` is a fact id. */
  ghost predicate Literal(toks: seq<Token>, t: Text) {
    forall k :: 0 <= k < |toks| ==>
      && toks[k].start <= toks[k].end <= |t|
      && t[toks[k].start..toks[k].end] == [OPEN] + toks[k].id + [CLOSE]
      && FactId(toks[k].id)
  }

  ghost predicate Ordered(toks: seq<Token>, t: Text, lo: nat) {
    Spread(toks, lo, |t|) && Literal(toks, t)
  }

  lemma {:induction false} TokensOrdered(t: Text, i: nat)
    requires i <= |t|
    ensures Ordered(Tokens(t, i), t, i)
    decreases |t| - i
  {
    if i < |t| {
      if t[i] == OPEN {
        TokensInOrdered(t, i, i + 1);
      } else {
        TokensOrdered(t, i + 1);
        SpreadWeaken(Tokens(t, i + 1), i, i + 1, |t|);
      }
    }
  }

  lemma {:induction false} TokensInOrdered(t: Text, open: nat, j: nat)
    requires open < j <= |t| && t[open] == OPEN
    ensures Ordered(TokensIn(t, open, j), t, open)
    decreases |t| - j
  {
    if j < |t| {
      if t[j] == CLOSE {
        TokensOrdered(t, j + 1);
        OrderedStep(t, open, j, Tokens(t, j + 1));
      } else {
        TokensInOrdered(t, open, j + 1);
      }
    }
  }

  lemma {:induction false} OrderedStep(t: Text, open: nat, close: nat, rest: seq<Token>)
    requires open < close < |t| && t[open] == OPEN && t[close] == CLOSE
    requires Ordered(rest, t, close + 1)
    ensures Ordered(TokenAt(t, open, close) + rest, t, open)
  {
    var id := t[open + 1..close];
    if FactId(id) {
      assert id != [];
      assert t[open..close + 1] == [OPEN] + id + [CLOSE];
      assert ([Token(id, open, close + 1)] + rest)[1..] == rest;
    } else {
      assert [] + rest == rest;
      SpreadWeaken(rest, open, close + 1, |t|);
    }
  }

  /** Every byte of a token is a one-byte character. */
  lemma {:induction false} TokenBytes(toks: seq<Token>, t: Text, k: nat, i: nat)
    requires Literal(toks, t) && k < |toks| && toks[k].start <= i < toks[k].end
    ensures t[i].Lead? && (IdChar(t[i].ch) || t[i].ch == '[' || t[i].ch == ']')
  {
    var s := t[toks[k].start..toks[k].end];
    assert s[i - toks[k].start] == t[i];
    if 0 < i - toks[k].start < |s| - 1 {
      assert t[i] == toks[k].id[i - toks[k].start - 1];
      IdTextAt(toks[k].id, i - toks[k].start - 1);
    }
  }

  // ---------- groups ----------

  predicate Adjacent(t: Text, a: nat, b: nat) {
    a <= b <= |t| && Blank(t[a..b])
  }

  function AddToken(groups: seq<Group>, tok: Token, t: Text): seq<Group> {
    var n := |groups|;
    if n > 0 && Adjacent(t, groups[n - 1].end, tok.start) then
      groups[..n - 1] + [Group(groups[n - 1].ids + [tok.id], groups[n - 1].start, tok.end)]
    else
      groups + [Group([tok.id], tok.start, tok.end)]
  }

  function GroupsOf(toks: seq<Token>, t: Text): seq<Group> {
    if toks == [] then []
    else AddToken(GroupsOf(toks[..|toks| - 1], t), toks[|toks| - 1], t)
  }

  method ReferenceGroups(references: seq<Token>, text: Text) returns (groups: seq<Group>)
    ensures groups == GroupsOf(references, text)
  {
    groups := [];
    for k := 0 to |references|
      invariant groups == GroupsOf(references[..k], text)
    {
      assert references[..k + 1][..k] == references[..k];
      var n := |groups|;
      var tok := references[k];
      if n > 0 && Adjacent(text, groups[n - 1].end, tok.start) {
        groups := groups[n - 1 := Group(groups[n - 1].ids + [tok.id], groups[n - 1].start, tok.end)];
      } else {
        groups := groups + [Group([tok.id], tok.start, tok.end)];
      }
    }
    assert references[..|references|] == references;
  }

  ghost function Flatten(runs: seq<seq<Token>>): seq<Token> {
    if runs == [] then [] else Flatten(runs[..|runs| - 1]) + runs[|runs| - 1]
  }

  ghost function Ids(run: seq<Token>): seq<Text> {
    seq(|run|, i requires 0 <= i < |run| => run[i].id)
  }

  /** A run of tokens with only whitespace between neighbours. */
  ghost predicate Run(run: seq<Token>, t: Text) {
    && run != []
    && forall k :: 0 <= k < |run| - 1 ==> Adjacent(t, run[k].end, run[k + 1].start)
  }

  ghost predicate Describes(g: Group, run: seq<Token>, t: Text) {
    && Run(run, t)
    && g == Group(Ids(run), run[0].start, run[|run| - 1].end)
  }

  /** `groups` are exactly the maximal whitespace-separated runs of `toks`. */
  ghost predicate MaximalRuns(groups: seq<Group>, runs: seq<seq<Token>>, toks: seq<Token>, t: Text) {
    && Flatten(runs) == toks
    && |groups| == |runs|
    && (forall k :: 0 <= k < |runs| ==> Describes(groups[k], runs[k], t))
    && (forall k :: 0 < k < |runs| ==> !Adjacent(t, groups[k - 1].end, groups[k].start))
  }

  /** `reference_groups` yields exactly the maximal whitespace-separated runs. */
  lemma {:induction false} GroupsAreMaximalRuns(toks: seq<Token>, t: Text) returns (runs: seq<seq<Token>>)
    ensures MaximalRuns(GroupsOf(toks, t), runs, toks, t)
  {
    if toks == [] {
      runs := [];
    } else {
      var init, tok := toks[..|toks| - 1], toks[|toks| - 1];
      var before := GroupsAreMaximalRuns(init, t);
      assert toks == init + [tok];
      runs := AddTokenKeepsRuns(GroupsOf(init, t), before, init, tok, t);
    }
  }

  lemma {:induction false} AddTokenKeepsRuns(gs: seq<Group>, runs: seq<seq<Token>>, toks: seq<Token>, tok: Token, t: Text)
    returns (runs': seq<seq<Token>>)
    requires MaximalRuns(gs, runs, toks, t)
    ensures MaximalRuns(AddToken(gs, tok, t), runs', toks + [tok], t)
  {
    var n := |gs|;
    if n > 0 && Adjacent(t, gs[n - 1].end, tok.start) {
      var run := runs[n - 1] + [tok];
      ExtendRun(gs[n - 1], runs[n - 1], tok, t);
      runs' := runs[..n - 1] + [run];
      FlattenReplace(runs, run, tok);
    } else {
      runs' := runs + [[tok]];
      assert runs'[..n] == runs;
      assert Ids([tok]) == [tok.id];
      assert Describes(Group([tok.id], tok.start, tok.end), [tok], t);
    }
  }

  lemma {:induction false} FlattenReplace(runs: seq<seq<Token>>, run: seq<Token>, tok: Token)
    requires runs != [] && run == runs[|runs| - 1] + [tok]
    ensures Flatten(runs[..|runs| - 1] + [run]) == Flatten(runs) + [tok]
  {
    assert (runs[..|runs| - 1] + [run])[..|runs| - 1] == runs[..|runs| - 1];
  }

  lemma {:induction false} ExtendRun(g: Group, run: seq<Token>, tok: Token, t: Text)
    requires Describes(g, run, t) && Adjacent(t, g.end, tok.start)
    ensures Describes(Group(g.ids + [tok.id], g.start, tok.end), run + [tok], t)
  {
    assert Ids(run + [tok]) == Ids(run) + [tok.id];
  }

  /** Groups hold at least one three-byte token and follow one another. */
  ghost predicate GroupsOrdered(groups: seq<Group>, n: nat) {
    groups == [] ||
    (var m := |groups| - 1;
     && GroupsOrdered(groups[..m], groups[m].start)
     && groups[m].start + 3 <= groups[m].end <= n
     && groups[m].ids != [])
  }

  lemma {:induction false} GroupsOrderedInit(groups: seq<Group>, n: nat)
    requires GroupsOrdered(groups, n) && groups != []
    ensures GroupsOrdered(groups[..|groups| - 1], groups[|groups| - 1].start)
    ensures LastEnd(groups[..|groups| - 1]) <= groups[|groups| - 1].start
  {
  }

  lemma {:induction false} GroupsOrderedMore(groups: seq<Group>, g: Group, n: nat)
    requires exists m :: GroupsOrdered(groups, m)
    requires LastEnd(groups) <= g.start && g.start + 3 <= g.end <= n && g.ids != []
    ensures GroupsOrdered(groups + [g], n)
  {
    assert (groups + [g])[..|groups|] == groups;
    if groups != [] {
      assert GroupsOrdered(groups, g.start);
    }
  }

  lemma {:induction false} GroupsOrderedAt(groups: seq<Group>, n: nat, k: nat)
    requires GroupsOrdered(groups, n) && k < |groups|
    ensures groups[k].start + 3 <= groups[k].end <= n && groups[k].ids != []
    ensures forall j :: 0 <= j < k ==> groups[j].end <= groups[k].start
  {
    var m := |groups| - 1;
    if k < m {
      GroupsOrderedAt(groups[..m], groups[m].start, k);
    } else {
      forall j | 0 <= j < m
        ensures groups[j].end <= groups[m].start
      {
        GroupsOrderedAt(groups[..m], groups[m].start, j);
      }
    }
  }

  ghost predicate StartsToken(toks: seq<Token>, i: nat) {
    exists k :: 0 <= k < |toks| && toks[k].start == i
  }

  ghost predicate EndsToken(toks: seq<Token>, i: nat) {
    exists k :: 0 <= k < |toks| && toks[k].end == i
  }

  ghost predicate Cited(toks: seq<Token>, id: Text) {
    exists k :: 0 <= k < |toks| && toks[k].id == id
  }

  /** Each group starts where a token starts, ends where a token ends, and names only
      ids of tokens. */
  ghost predicate MadeOf(groups: seq<Group>, toks: seq<Token>) {
    forall k :: 0 <= k < |groups| ==>
      && StartsToken(toks, groups[k].start)
      && EndsToken(toks, groups[k].end)
      && forall id :: id in groups[k].ids ==> Cited(toks, id)
  }

  lemma {:induction false} MadeOfMore(groups: seq<Group>, toks: seq<Token>, tok: Token)
    requires MadeOf(groups, toks)
    ensures MadeOf(groups, toks + [tok])
  {
    forall k | 0 <= k < |groups|
      ensures StartsToken(toks + [tok], groups[k].start)
      ensures EndsToken(toks + [tok], groups[k].end)
      ensures forall id :: id in groups[k].ids ==> Cited(toks + [tok], id)
    {
      var i :| 0 <= i < |toks| && toks[i].start == groups[k].start;
      assert (toks + [tok])[i] == toks[i];
      var j :| 0 <= j < |toks| && toks[j].end == groups[k].end;
      assert (toks + [tok])[j] == toks[j];
      forall id | id in groups[k].ids
        ensures Cited(toks + [tok], id)
      {
        var l :| 0 <= l < |toks| && toks[l].id == id;
        assert (toks + [tok])[l] == toks[l];
      }
    }
  }

  lemma {:induction false} GroupsOfOrdered(toks: seq<Token>, t: Text)
    requires Spread(toks, 0, |t|)
    ensures GroupsOrdered(GroupsOf(toks, t), |t|)
    ensures MadeOf(GroupsOf(toks, t), toks)
    ensures toks == [] <==> GroupsOf(toks, t) == []
    ensures toks != [] ==> LastEnd(GroupsOf(toks, t)) == toks[|toks| - 1].end
  {
    if toks != [] {
      var n := |toks|;
      var init, tok := toks[..n - 1], toks[n - 1];
      SpreadInit(toks, 0, |t|);
      GroupsOfOrdered(init, t);
      SpreadBounds(toks, 0, |t|);
      if n > 1 {
        SpreadPair(toks, 0, |t|, n - 2, n - 1);
      }
      assert toks == init + [tok];
      AddTokenOrdered(GroupsOf(init, t), tok, t);
      AddTokenMadeOf(GroupsOf(init, t), init, tok, t);
    }
  }

  function LastEnd(groups: seq<Group>): nat {
    if groups == [] then 0 else groups[|groups| - 1].end
  }

  lemma {:induction false} AddTokenMadeOf(groups: seq<Group>, toks: seq<Token>, tok: Token, t: Text)
    requires MadeOf(groups, toks)
    ensures MadeOf(AddToken(groups, tok, t), toks + [tok])
  {
    var all := toks + [tok];
    assert all[|toks|] == tok;
    assert StartsToken(all, tok.start) && EndsToken(all, tok.end) && Cited(all, tok.id);
    MadeOfMore(groups, toks, tok);
  }

  lemma {:induction false} AddTokenOrdered(groups: seq<Group>, tok: Token, t: Text)
    requires GroupsOrdered(groups, |t|) && LastEnd(groups) <= tok.start
    requires tok.start + 3 <= tok.end <= |t|
    ensures GroupsOrdered(AddToken(groups, tok, t), |t|)
    ensures AddToken(groups, tok, t) != [] && LastEnd(AddToken(groups, tok, t)) == tok.end
  {
    var n := |groups|;
    if n > 0 && Adjacent(t, groups[n - 1].end, tok.start) {
      GroupsOrderedInit(groups, |t|);
      GroupsOrderedMore(groups[..n - 1], Group(groups[n - 1].ids + [tok.id], groups[n - 1].start, tok.end), |t|);
    } else {
      GroupsOrderedMore(groups, Group([tok.id], tok.start, tok.end), |t|);
    }
  }

  // ---------- masking ----------

  ghost predicate Inside(toks: seq<Token>, i: int) {
    exists k :: 0 <= k < |toks| && toks[k].start <= i < toks[k].end
  }

  /** The text with every token's bytes blanked. */
  ghost predicate Masked(t: Text, toks: seq<Token>, m: Text) {
    && |m| == |t|
    && forall i :: 0 <= i < |t| ==> m[i] == if Inside(toks, i) then SPACE else t[i]
  }

  ghost function MaskOf(t: Text, toks: seq<Token>): (m: Text)
    ensures Masked(t, toks, m)
  {
    seq(|t|, i requires 0 <= i < |t| => if Inside(toks, i) then SPACE else t[i])
  }

  method MaskReferences(text: Text, references: seq<Token>) returns (bytes: Text)
    requires Spread(references, 0, |text|)
    ensures bytes == MaskOf(text, references)
  {
    bytes := text;
    SpreadBounds(references, 0, |text|);
    for k := 0 to |references|
      invariant Masked(text, references[..k], bytes)
    {
      var r := references[k];
      for i := r.start to r.end
        invariant |bytes| == |text|
        invariant forall j :: 0 <= j < |text| ==>
          bytes[j] == if Inside(references[..k], j) || r.start <= j < i then SPACE else text[j]
      {
        bytes := bytes[i := SPACE];
      }
      InsideStep(references, k);
    }
    assert references[..|references|] == references;
  }

  lemma {:induction false} InsideStep(toks: seq<Token>, k: nat)
    requires k < |toks|
    ensures forall j :: Inside(toks[..k + 1], j) <==> Inside(toks[..k], j) || toks[k].start <= j < toks[k].end
  {
    forall j
      ensures Inside(toks[..k + 1], j) <==> Inside(toks[..k], j) || toks[k].start <= j < toks[k].end
    {
      if Inside(toks[..k], j) {
        var i :| 0 <= i < k && toks[..k][i].start <= j < toks[..k][i].end;
        assert toks[..k + 1][i] == toks[i];
      }
      if toks[k].start <= j < toks[k].end {
        assert toks[..k + 1][k] == toks[k];
      }
      if Inside(toks[..k + 1], j) {
        var i :| 0 <= i <= k && toks[..k + 1][i].start <= j < toks[..k + 1][i].end;
        if i < k {
          assert toks[..k][i] == toks[i];
        }
      }
    }
  }

  /** Masking never tears a character: the `expect` in `mask_references` cannot fail. */
  lemma {:induction false} MaskedUtf8(t: Text, toks: seq<Token>, m: Text)
    requires Utf8(t) && Literal(toks, t) && Masked(t, toks, m)
    ensures Utf8(m)
    ensures forall i: nat :: i <= |t| ==> (Boundary(m, i) <==> Boundary(t, i))
  {
    forall i: nat | i < |t|
      ensures m[i].Lead? <==> t[i].Lead?
      ensures m[i].Cont? ==> m[i] == t[i]
    {
      if Inside(toks, i) {
        var k :| 0 <= k < |toks| && toks[k].start <= i < toks[k].end;
        TokenBytes(toks, t, k, i);
      }
    }
    forall i: nat | i < |m| && m[i].Lead?
      ensures Whole(m, i)
    {
      assert Whole(t, i);
      if Inside(toks, i) {
        var k :| 0 <= k < |toks| && toks[k].start <= i < toks[k].end;
        TokenBytes(toks, t, k, i);
      }
    }
  }
}
