/** Removing the citation tokens for display
    (crates/agent/src/answer_contract.rs:617-630), and why a second scan of the
    displayed text finds no token. */
module Stripping {
  import opened Text
  import opened References

  /** The text without the tokens, from byte `cursor` on. */
  function Removed(t: Text, toks: seq<Token>, cursor: nat): Text
    requires cursor <= |t| && Spread(toks, cursor, |t|)
    decreases |toks|
  {
    if toks == [] then t[cursor..]
    else t[cursor..toks[0].start] + Removed(t, toks[1..], toks[0].end)
  }

  /** `s.replace(" p", "p")`. */
  function Squeeze(t: Text, p: char): Text {
    if |t| < 2 then t
    else if t[0] == SPACE && t[1] == Lead(p) then Squeeze(t[1..], p)
    else [t[0]] + Squeeze(t[1..], p)
  }

  function DropConts(t: Text): Text {
    if t != [] && t[0].Cont? then DropConts(t[1..]) else t
  }

  lemma {:induction false} DropContsShorter(t: Text)
    ensures |DropConts(t)| <= |t|
  {
    if t != [] && t[0].Cont? {
      DropContsShorter(t[1..]);
    }
  }

  function TrimStart(t: Text): Text
    decreases |t|
  {
    if t != [] && t[0].Lead? && IsSpace(t[0].ch) then
      DropContsShorter(t[1..]);
      TrimStart(DropConts(t[1..]))
    else t
  }

  /** Where the last character starts; 0 for the empty text. */
  function LastStart(t: Text, n: nat): (k: nat)
    requires n <= |t|
    ensures k <= n && (n > 0 ==> k < n)
  {
    if n == 0 then 0 else if t[n - 1].Lead? then n - 1 else LastStart(t, n - 1)
  }

  function TrimEnd(t: Text): Text {
    var k := LastStart(t, |t|);
    if k < |t| && t[k].Lead? && IsSpace(t[k].ch) then TrimEnd(t[..k]) else t
  }

  /** `s.trim()`. */
  function Trim(t: Text): Text { TrimEnd(TrimStart(t)) }

  function SqueezeAll(t: Text): Text {
    Squeeze(Squeeze(Squeeze(Squeeze(t, '。'), '，'), '；'), '：')
  }

  function Tidy(t: Text): Text {
    Trim(SqueezeAll(t))
  }

  method StripReferences(text: Text, references: seq<Token>) returns (shown: Text)
    requires Spread(references, 0, |text|)
    ensures shown == Tidy(Removed(text, references, 0))
  {
    var out := [];
    var cursor: nat := 0;
    for k := 0 to |references|
      invariant cursor <= |text|
      invariant Spread(references[k..], cursor, |text|)
      invariant Removed(text, references, 0) == out + Removed(text, references[k..], cursor)
    {
      assert references[k..][1..] == references[k + 1..];
      Associate(out, text[cursor..references[k].start], Removed(text, references[k + 1..], references[k].end));
      out := out + text[cursor..references[k].start];
      cursor := references[k].end;
    }
    out := out + text[cursor..];
    shown := Trim(Squeeze(Squeeze(Squeeze(Squeeze(out, '。'), '，'), '；'), '：'));
  }

  lemma {:induction false} Associate(a: Text, b: Text, c: Text)
    ensures a + (b + c) == (a + b) + c
  {
  }

  // ---------- texts in which a scan finds no token ----------

  ghost predicate Clean(t: Text)
    decreases |t|
  {
    t == [] || if t[0] == OPEN then CleanIn(t[1..], []) else Clean(t[1..])
  }

  ghost predicate CleanIn(t: Text, id: Text)
    decreases |t|
  {
    t == [] || if t[0] == CLOSE then !FactId(id) && Clean(t[1..]) else CleanIn(t[1..], id + [t[0]])
  }

  lemma {:induction false} CleanMeaning(t: Text, i: nat)
    requires i <= |t|
    ensures Clean(t[i..]) <==> Tokens(t, i) == []
    decreases |t| - i
  {
    if i < |t| {
      assert t[i..][1..] == t[i + 1..];
      if t[i] == OPEN {
        CleanInMeaning(t, i, i + 1);
        assert t[i + 1..i + 1] == [];
      } else {
        CleanMeaning(t, i + 1);
      }
    }
  }

  lemma {:induction false} CleanInMeaning(t: Text, open: nat, j: nat)
    requires open < j <= |t|
    ensures CleanIn(t[j..], t[open + 1..j]) <==> TokensIn(t, open, j) == []
    decreases |t| - j
  {
    if j < |t| {
      assert t[j..][1..] == t[j + 1..];
      if t[j] == CLOSE {
        CleanMeaning(t, j + 1);
      } else {
        assert t[open + 1..j] + [t[j]] == t[open + 1..j + 1];
        CleanInMeaning(t, open, j + 1);
      }
    }
  }

  // ---------- removing the tokens leaves a clean text ----------

  function Kept(t: Text): Text
    decreases |t|
  {
    if t == [] then []
    else if t[0] == OPEN then KeptIn(t[1..], [])
    else [t[0]] + Kept(t[1..])
  }

  function KeptIn(t: Text, id: Text): Text
    decreases |t|
  {
    if t == [] then [OPEN] + id
    else if t[0] == CLOSE then (if FactId(id) then Kept(t[1..]) else [OPEN] + id + [CLOSE] + Kept(t[1..]))
    else KeptIn(t[1..], id + [t[0]])
  }

  lemma {:induction false} CleanUnclosed(x: Text, id: Text)
    requires Without(x, CLOSE)
    ensures CleanIn(x, id)
    decreases |x|
  {
    if x != [] {
      CleanUnclosed(x[1..], id + [x[0]]);
    }
  }

  lemma {:induction false} CleanClosed(x: Text, r: Text, id: Text)
    requires Without(x, CLOSE) && !FactId(id + x) && Clean(r)
    ensures CleanIn(x + [CLOSE] + r, id)
    decreases |x|
  {
    var t := x + [CLOSE] + r;
    if x == [] {
      assert id + x == id;
      assert t[1..] == r;
    } else {
      assert t[1..] == x[1..] + [CLOSE] + r;
      assert (id + [x[0]]) + x[1..] == id + x;
      CleanClosed(x[1..], r, id + [x[0]]);
    }
  }

  lemma {:induction false} KeptClean(t: Text)
    ensures Clean(Kept(t))
    decreases |t|
  {
    if t != [] {
      if t[0] == OPEN {
        KeptInClean(t[1..], []);
      } else {
        KeptClean(t[1..]);
        assert ([t[0]] + Kept(t[1..]))[1..] == Kept(t[1..]);
      }
    }
  }

  lemma {:induction false} KeptInClean(t: Text, id: Text)
    requires Without(id, CLOSE)
    ensures Clean(KeptIn(t, id))
    decreases |t|
  {
    if t == [] {
      CleanUnclosed(id, []);
      assert ([OPEN] + id)[1..] == id;
    } else if t[0] == CLOSE {
      KeptClean(t[1..]);
      if !FactId(id) {
        assert [] + id == id;
        CleanClosed(id, Kept(t[1..]), []);
        assert ([OPEN] + id + [CLOSE] + Kept(t[1..]))[1..] == id + [CLOSE] + Kept(t[1..]);
      }
    } else {
      KeptInClean(t[1..], id + [t[0]]);
    }
  }

  lemma {:induction false} RemovedOne(t: Text, toks: seq<Token>, i: nat)
    requires i < |t| && Spread(toks, i + 1, |t|)
    ensures Spread(toks, i, |t|)
    ensures Removed(t, toks, i) == [t[i]] + Removed(t, toks, i + 1)
  {
    SpreadWeaken(toks, i, i + 1, |t|);
    if toks != [] {
      assert t[i..toks[0].start] == [t[i]] + t[i + 1..toks[0].start];
    }
  }

  lemma {:induction false} RemovedRange(t: Text, toks: seq<Token>, i: nat, j: nat)
    requires i <= j <= |t| && Spread(toks, j, |t|)
    ensures Spread(toks, i, |t|)
    ensures Removed(t, toks, i) == t[i..j] + Removed(t, toks, j)
    decreases j - i
  {
    if i < j {
      RemovedRange(t, toks, i + 1, j);
      RemovedOne(t, toks, i);
      assert t[i..j] == [t[i]] + t[i + 1..j];
    }
  }

  lemma {:induction false} RemovedIsKept(t: Text, i: nat)
    requires i <= |t|
    ensures Spread(Tokens(t, i), i, |t|)
    ensures Removed(t, Tokens(t, i), i) == Kept(t[i..])
    decreases |t| - i
  {
    if i < |t| {
      assert t[i..][1..] == t[i + 1..];
      if t[i] == OPEN {
        RemovedInIsKept(t, i, i + 1);
        assert t[i + 1..i + 1] == [];
      } else {
        RemovedIsKept(t, i + 1);
        RemovedOne(t, Tokens(t, i + 1), i);
      }
    }
  }

  lemma {:induction false} RemovedInIsKept(t: Text, open: nat, j: nat)
    requires open < j <= |t| && t[open] == OPEN
    ensures Spread(TokensIn(t, open, j), open, |t|)
    ensures Removed(t, TokensIn(t, open, j), open) == KeptIn(t[j..], t[open + 1..j])
    decreases |t| - j
  {
    var id := t[open + 1..j];
    if j == |t| {
      assert t[open..] == [OPEN] + id;
    } else {
      assert t[j..][1..] == t[j + 1..];
      if t[j] == CLOSE {
        RemovedIsKept(t, j + 1);
        RemovedBracket(t, open, j);
      } else {
        assert id + [t[j]] == t[open + 1..j + 1];
        RemovedInIsKept(t, open, j + 1);
      }
    }
  }

  lemma {:induction false} RemovedBracket(t: Text, open: nat, j: nat)
    requires open < j < |t| && t[open] == OPEN && t[j] == CLOSE
    requires Spread(Tokens(t, j + 1), j + 1, |t|)
    ensures Spread(TokenAt(t, open, j) + Tokens(t, j + 1), open, |t|)
    ensures var id, rest := t[open + 1..j], Removed(t, Tokens(t, j + 1), j + 1);
      Removed(t, TokenAt(t, open, j) + Tokens(t, j + 1), open) ==
      if FactId(id) then rest else [OPEN] + id + [CLOSE] + rest
  {
    var id, rest := t[open + 1..j], Tokens(t, j + 1);
    var toks := TokenAt(t, open, j) + rest;
    if FactId(id) {
      assert toks == [Token(id, open, j + 1)] + rest;
      BracketCut(t, id, open, j, rest, toks);
    } else {
      assert toks == rest;
      BracketLeft(t, id, open, j, rest);
    }
  }

  lemma {:induction false} BracketCut(t: Text, id: Text, open: nat, j: nat, rest: seq<Token>, toks: seq<Token>)
    requires open < j < |t| && id == t[open + 1..j] && id != [] && Spread(rest, j + 1, |t|)
    requires toks == [Token(id, open, j + 1)] + rest
    ensures Spread(toks, open, |t|) && Removed(t, toks, open) == Removed(t, rest, j + 1)
  {
    assert toks[1..] == rest;
    RemovedHead(t, toks, open);
  }

  lemma {:induction false} BracketLeft(t: Text, id: Text, open: nat, j: nat, rest: seq<Token>)
    requires open < j < |t| && t[open] == OPEN && t[j] == CLOSE && id == t[open + 1..j] && Spread(rest, j + 1, |t|)
    ensures Spread(rest, open, |t|) && Removed(t, rest, open) == [OPEN] + id + [CLOSE] + Removed(t, rest, j + 1)
  {
    RemovedRange(t, rest, open, j + 1);
    assert t[open..j + 1] == [OPEN] + id + [CLOSE];
  }

  lemma {:induction false} RemovedHead(t: Text, toks: seq<Token>, i: nat)
    requires i <= |t| && toks != [] && toks[0].start == i && toks[0].start + 3 <= toks[0].end <= |t|
    requires Spread(toks[1..], toks[0].end, |t|)
    ensures Spread(toks, i, |t|)
    ensures Removed(t, toks, i) == Removed(t, toks[1..], toks[0].end)
  {
    assert t[i..i] == [];
  }

  // ---------- tidying keeps a text clean ----------

  lemma {:induction false} IdTextPrefix(id: Text, b: Byte)
    ensures IdText(id + [b]) <==> IdText(id) && b.Lead? && IdChar(b.ch)
  {
    if id == [] {
      assert (id + [b])[1..] == [];
    } else {
      assert (id + [b])[1..] == id[1..] + [b];
      IdTextPrefix(id[1..], b);
    }
  }

  lemma {:induction false} SqueezeClean(t: Text, p: char)
    requires Clean(t) && !IdChar(p) && p != ' ' && p != '[' && p != ']'
    ensures Clean(Squeeze(t, p))
    decreases |t|
  {
    if |t| >= 2 {
      var r := Squeeze(t[1..], p);
      assert ([t[0]] + r)[1..] == r;
      if t[0] == OPEN {
        SqueezeCleanIn(t[1..], p, [], []);
      } else {
        SqueezeClean(t[1..], p);
      }
    }
  }

  /** `id` and `id'` are what has been read since the `[`, before and after squeezing;
      they agree, or `id'` is spoilt, or is about to be. */
  lemma {:induction false} SqueezeCleanIn(t: Text, p: char, id: Text, id': Text)
    requires CleanIn(t, id) && !IdChar(p) && p != ' ' && p != '[' && p != ']'
    requires id == id' || !IdText(id') || (t != [] && t[0] == Lead(p))
    ensures CleanIn(Squeeze(t, p), id')
    decreases |t|
  {
    if t == [] {
    } else if t[0] == CLOSE {
      assert Clean(t[1..]);
      SqueezeClean(t[1..], p);
      SqueezeHead(t, p);
    } else if |t| >= 2 && t[0] == SPACE && t[1] == Lead(p) {
      SqueezeCleanIn(t[1..], p, id + [t[0]], id');
    } else {
      IdTextPrefix(id', t[0]);
      SqueezeHead(t, p);
      SqueezeCleanIn(t[1..], p, id + [t[0]], id' + [t[0]]);
    }
  }

  lemma {:induction false} SqueezeHead(t: Text, p: char)
    requires t != [] && !(|t| >= 2 && t[0] == SPACE && t[1] == Lead(p))
    ensures Squeeze(t, p) == [t[0]] + Squeeze(t[1..], p)
    ensures Squeeze(t, p)[1..] == Squeeze(t[1..], p)
  {
  }

  lemma {:induction false} DropContsClean(t: Text)
    requires Clean(t)
    ensures Clean(DropConts(t))
  {
    if t != [] && t[0].Cont? {
      DropContsClean(t[1..]);
    }
  }

  lemma {:induction false} TrimStartClean(t: Text)
    requires Clean(t)
    ensures Clean(TrimStart(t))
    decreases |t|
  {
    if t != [] && t[0].Lead? && IsSpace(t[0].ch) {
      DropContsShorter(t[1..]);
      DropContsClean(t[1..]);
      TrimStartClean(DropConts(t[1..]));
    }
  }

  lemma {:induction false} CleanPrefix(t: Text, r: Text)
    requires Clean(t + r)
    ensures Clean(t)
    decreases |t|
  {
    if t != [] {
      assert (t + r)[1..] == t[1..] + r;
      if t[0] == OPEN {
        CleanInPrefix(t[1..], r, []);
      } else {
        CleanPrefix(t[1..], r);
      }
    }
  }

  lemma {:induction false} CleanInPrefix(t: Text, r: Text, id: Text)
    requires CleanIn(t + r, id)
    ensures CleanIn(t, id)
    decreases |t|
  {
    if t != [] {
      assert (t + r)[1..] == t[1..] + r;
      if t[0] == CLOSE {
        CleanPrefix(t[1..], r);
      } else {
        CleanInPrefix(t[1..], r, id + [t[0]]);
      }
    }
  }

  lemma {:induction false} TrimEndClean(t: Text)
    requires Clean(t)
    ensures Clean(TrimEnd(t))
    decreases |t|
  {
    var k := LastStart(t, |t|);
    if k < |t| && t[k].Lead? && IsSpace(t[k].ch) {
      assert t == t[..k] + t[k..];
      CleanPrefix(t[..k], t[k..]);
      TrimEndClean(t[..k]);
    }
  }

  lemma {:induction false} SqueezeAllClean(t: Text)
    requires Clean(t)
    ensures Clean(SqueezeAll(t))
  {
    SqueezeClean(t, '。');
    SqueezeClean(Squeeze(t, '。'), '，');
    var s := Squeeze(Squeeze(t, '。'), '，');
    SqueezeClean(s, '；');
    SqueezeClean(Squeeze(s, '；'), '：');
  }

  /** Scanning the displayed text again finds no citation token, whatever brackets,
      nested or unbalanced, the model wrote. */
  lemma {:induction false} StrippedHasNoToken(t: Text)
    ensures Spread(Tokens(t, 0), 0, |t|)
    ensures Tokens(Tidy(Removed(t, Tokens(t, 0), 0)), 0) == []
  {
    RemovedIsKept(t, 0);
    assert t[0..] == t;
    var r := Kept(t);
    KeptClean(t);
    SqueezeAllClean(r);
    TrimStartClean(SqueezeAll(r));
    TrimEndClean(TrimStart(SqueezeAll(r)));
    CleanMeaning(Tidy(r), 0);
    assert Tidy(r)[0..] == Tidy(r);
  }

  // ---------- tidying loses no visible character ----------

  /** The text without its whitespace characters. */
  ghost function Visible(t: Text): Text
    decreases |t|
  {
    if t == [] then []
    else if t[0].Lead? && IsSpace(t[0].ch) then
      DropContsShorter(t[1..]);
      Visible(DropConts(t[1..]))
    else [t[0]] + Visible(t[1..])
  }

  lemma {:induction false} DropContsSqueeze(t: Text, p: char)
    ensures DropConts(Squeeze(t, p)) == Squeeze(DropConts(t), p)
  {
    if t != [] && t[0].Cont? {
      SqueezeHead(t, p);
      DropContsSqueeze(t[1..], p);
    } else if |t| >= 2 {
      SqueezeFirst(t, p);
    }
  }

  lemma {:induction false} SqueezeFirst(t: Text, p: char)
    requires t != [] && t[0].Lead?
    ensures Squeeze(t, p) != [] && Squeeze(t, p)[0].Lead?
  {
    if |t| >= 2 && t[0] == SPACE && t[1] == Lead(p) {
      SqueezeFirst(t[1..], p);
    }
  }

  lemma {:induction false} SqueezeVisible(t: Text, p: char)
    ensures Visible(Squeeze(t, p)) == Visible(t)
    decreases |t|
  {
    if |t| < 2 {
    } else if t[0] == SPACE && t[1] == Lead(p) {
      SqueezeVisible(t[1..], p);
      assert DropConts(t[1..]) == t[1..];
    } else {
      SqueezeHead(t, p);
      if t[0].Lead? && IsSpace(t[0].ch) {
        DropContsShorter(t[1..]);
        DropContsSqueeze(t[1..], p);
        SqueezeVisible(DropConts(t[1..]), p);
      } else {
        SqueezeVisible(t[1..], p);
      }
    }
  }

  lemma {:induction false} TrimStartVisible(t: Text)
    ensures Visible(TrimStart(t)) == Visible(t)
    decreases |t|
  {
    if t != [] && t[0].Lead? && IsSpace(t[0].ch) {
      DropContsShorter(t[1..]);
      TrimStartVisible(DropConts(t[1..]));
    }
  }

  lemma {:induction false} DropContsAppend(t: Text, w: Text)
    requires w != [] && w[0].Lead?
    ensures DropConts(t + w) == DropConts(t) + w
  {
    if t == [] {
      assert t + w == w;
    } else {
      assert (t + w)[1..] == t[1..] + w;
      if t[0].Cont? {
        DropContsAppend(t[1..], w);
      }
    }
  }

  lemma {:induction false} DropContsAll(t: Text)
    requires forall k :: 0 <= k < |t| ==> t[k].Cont?
    ensures DropConts(t) == []
  {
    if t != [] {
      DropContsAll(t[1..]);
    }
  }

  /** A final whitespace character is invisible. */
  lemma {:induction false} VisibleTail(t: Text, w: Text)
    requires w != [] && w[0].Lead? && IsSpace(w[0].ch)
    requires forall k :: 1 <= k < |w| ==> w[k].Cont?
    ensures Visible(t + w) == Visible(t)
    decreases |t|
  {
    if t == [] {
      assert t + w == w;
      DropContsAll(w[1..]);
    } else {
      assert (t + w)[1..] == t[1..] + w;
      if t[0].Lead? && IsSpace(t[0].ch) {
        DropContsShorter(t[1..]);
        DropContsAppend(t[1..], w);
        VisibleTail(DropConts(t[1..]), w);
      } else {
        VisibleTail(t[1..], w);
      }
    }
  }

  lemma {:induction false} LastStartLast(t: Text, n: nat)
    requires n <= |t|
    ensures forall i :: LastStart(t, n) < i < n ==> t[i].Cont?
  {
    if n > 0 && t[n - 1].Cont? {
      LastStartLast(t, n - 1);
    }
  }

  lemma {:induction false} TrimEndVisible(t: Text)
    ensures Visible(TrimEnd(t)) == Visible(t)
    decreases |t|
  {
    var k := LastStart(t, |t|);
    if k < |t| && t[k].Lead? && IsSpace(t[k].ch) {
      LastStartLast(t, |t|);
      assert t == t[..k] + t[k..];
      VisibleTail(t[..k], t[k..]);
      TrimEndVisible(t[..k]);
    }
  }

  /** What is displayed is, up to whitespace, exactly the text outside the tokens. */
  lemma {:induction false} StrippingKeepsVisible(t: Text)
    ensures Spread(Tokens(t, 0), 0, |t|)
    ensures var outside := Removed(t, Tokens(t, 0), 0);
      Visible(Tidy(outside)) == Visible(outside)
  {
    RemovedIsKept(t, 0);
    var r := Removed(t, Tokens(t, 0), 0);
    SqueezeVisible(r, '。');
    SqueezeVisible(Squeeze(r, '。'), '，');
    var s := Squeeze(Squeeze(r, '。'), '，');
    SqueezeVisible(s, '；');
    SqueezeVisible(Squeeze(s, '；'), '：');
    TrimStartVisible(SqueezeAll(r));
    TrimEndVisible(TrimStart(SqueezeAll(r)));
  }
}
