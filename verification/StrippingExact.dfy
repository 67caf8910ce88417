/** What is shown of a text, byte by byte (crates/agent/src/answer_contract.rs:616-630). */
module StrippingExact {
  import opened Text
  import opened References
  import opened Stripping
  import opened Backing

  /** `out` is what lies outside the tokens, from byte `i` on. */
  ghost predicate Outside(t: Text, i: nat, toks: seq<Token>, out: Text)
    requires i <= |t|
    decreases |t| - i
  {
    if i == |t| then out == []
    else if Inside(toks, i) then Outside(t, i + 1, toks, out)
    else out != [] && out[0] == t[i] && Outside(t, i + 1, toks, out[1..])
  }

  /** `out` is `t` without the blanks that stand right before `mark`. */
  predicate ClosesUp(t: Text, mark: char, out: Text)
    decreases |t|
  {
    if t == [] then out == []
    else if |t| > 1 && t[0] == Lead(' ') && t[1] == Lead(mark) then ClosesUp(t[1..], mark, out)
    else out != [] && out[0] == t[0] && ClosesUp(t[1..], mark, out[1..])
  }

  /** `out` is `t` without the white space at its ends. */
  ghost predicate Trims(t: Text, out: Text) {
    exists i, j :: TrimsTo(t, i, j, out)
  }

  ghost predicate TrimsTo(t: Text, i: nat, j: nat, out: Text) {
    && i <= j <= |t| && out == t[i..j] && Blank(t[..i]) && Blank(t[j..])
    && (i < j ==> t[i].Lead? && !IsSpace(t[i].ch) && Boundary(t, j) && !BlankBefore(t, j))
  }

  lemma {:induction false} NoneInside(t: Text, i: nat, j: nat, toks: seq<Token>, rest: Text)
    requires i <= j <= |t| && (forall k :: i <= k < j ==> !Inside(toks, k)) && Outside(t, j, toks, rest)
    ensures Outside(t, i, toks, t[i..j] + rest)
    decreases j - i
  {
    if i < j {
      NoneInside(t, i + 1, j, toks, rest);
      assert (t[i..j] + rest)[1..] == t[i + 1..j] + rest;
    } else {
      assert t[i..j] + rest == rest;
    }
  }

  lemma {:induction false} AllInside(t: Text, i: nat, j: nat, toks: seq<Token>, rest: Text)
    requires i <= j <= |t| && (forall k :: i <= k < j ==> Inside(toks, k)) && Outside(t, j, toks, rest)
    ensures Outside(t, i, toks, rest)
    decreases j - i
  {
    if i < j {
      AllInside(t, i + 1, j, toks, rest);
    }
  }

  /** Bytes from the first token's end on are inside a token exactly if they are inside a later one. */
  lemma {:induction false} InsideLater(toks: seq<Token>, i: nat)
    requires toks != [] && i >= toks[0].end
    ensures Inside(toks, i) <==> Inside(toks[1..], i)
  {
    assert forall k :: 0 < k < |toks| ==> toks[k] == toks[1..][k - 1];
    assert forall k :: 0 <= k < |toks[1..]| ==> toks[1..][k] == toks[k + 1];
  }

  lemma {:induction false} OutsideLater(t: Text, i: nat, toks: seq<Token>, out: Text)
    requires toks != [] && toks[0].end <= i <= |t| && Outside(t, i, toks[1..], out)
    ensures Outside(t, i, toks, out)
    decreases |t| - i
  {
    if i < |t| {
      InsideLater(toks, i);
      if Inside(toks, i) {
        OutsideLater(t, i + 1, toks, out);
      } else {
        OutsideLater(t, i + 1, toks, out[1..]);
      }
    }
  }

  lemma {:induction false} NotYet(toks: seq<Token>, lo: nat, n: nat, k: nat)
    requires toks != [] && Spread(toks, lo, n) && k < toks[0].start
    ensures !Inside(toks, k)
  {
    SpreadBounds(toks, toks[0].start, n);
  }

  lemma {:induction false} RemovedIsOutside(t: Text, toks: seq<Token>, cursor: nat)
    requires cursor <= |t| && Spread(toks, cursor, |t|)
    ensures Outside(t, cursor, toks, Removed(t, toks, cursor))
    decreases |toks|
  {
    if toks == [] {
      NoneInside(t, cursor, |t|, toks, []);
      assert t[cursor..|t|] + [] == t[cursor..];
    } else {
      var rest := Removed(t, toks[1..], toks[0].end);
      RemovedIsOutside(t, toks[1..], toks[0].end);
      OutsideLater(t, toks[0].end, toks, rest);
      AllInside(t, toks[0].start, toks[0].end, toks, rest);
      forall k | cursor <= k < toks[0].start
        ensures !Inside(toks, k)
      {
        NotYet(toks, cursor, |t|, k);
      }
      NoneInside(t, cursor, toks[0].start, toks, rest);
    }
  }

  lemma {:induction false} SqueezeCloses(t: Text, mark: char)
    ensures ClosesUp(t, mark, Squeeze(t, mark))
    decreases |t|
  {
    if |t| >= 2 {
      SqueezeCloses(t[1..], mark);
      if !(t[0] == SPACE && t[1] == Lead(mark)) {
        assert Squeeze(t, mark)[1..] == Squeeze(t[1..], mark);
      }
    } else if t != [] {
      assert t[1..] == [];
    }
  }

  lemma {:induction false} SqueezeUtf8(t: Text, mark: char)
    requires Utf8(t)
    ensures Utf8(Squeeze(t, mark))
    decreases |t|
  {
    if |t| >= 2 {
      if t[0] == SPACE && t[1] == Lead(mark) {
        SliceUtf8(t, 1, |t|);
        assert t[1..|t|] == t[1..];
        SqueezeUtf8(t[1..], mark);
      } else {
        var w := Width(t[0].ch);
        assert Whole(t, 0);
        SqueezeSkips(t, w, mark);
        SliceUtf8(t, 0, w);
        SliceUtf8(t, w, |t|);
        assert t[0..w] == t[..w] && t[w..|t|] == t[w..];
        SqueezeUtf8(t[w..], mark);
        ConcatUtf8(t[..w], Squeeze(t[w..], mark));
      }
    }
  }

  /** The first character goes through unchanged. */
  lemma {:induction false} SqueezeSkips(t: Text, w: nat, mark: char)
    requires 0 < w <= |t| && !(|t| > 1 && t[0] == SPACE && t[1] == Lead(mark)) && forall k :: 1 <= k < w ==> t[k].Cont?
    ensures Squeeze(t, mark) == t[..w] + Squeeze(t[w..], mark)
    decreases w
  {
    if |t| < 2 {
      assert t[w..] == [] && t[..w] == t;
    } else if w == 1 {
      assert [t[0]] == t[..1];
    } else {
      SqueezeSkips(t[1..], w - 1, mark);
      FirstBack(t, w, Squeeze(t[w..], mark));
    }
  }

  lemma {:induction false} FirstBack<T>(t: seq<T>, w: nat, r: seq<T>)
    requires 0 < w <= |t|
    ensures t[1..][w - 1..] == t[w..] && [t[0]] + (t[1..][..w - 1] + r) == t[..w] + r
  {
    assert [t[0]] + t[1..][..w - 1] == t[..w];
  }

  lemma {:induction false} TrimTrims(t: Text)
    requires Utf8(t)
    ensures Trims(t, Trim(t))
  {
    var i, j := TrimExact(t);
    assert TrimsTo(t, i, j, Trim(t));
  }

  /** What is shown of text `u` outside the citations. */
  ghost predicate Tidied(u: Text, out: Text) {
    exists a, b, c, d ::
      ClosesUp(u, '。', a) && ClosesUp(a, '，', b) && ClosesUp(b, '；', c) && ClosesUp(c, '：', d) && Trims(d, out)
  }

  lemma {:induction false} TidyTidies(u: Text)
    requires Utf8(u)
    ensures Tidied(u, Tidy(u))
  {
    var a := Squeeze(u, '。');
    var b := Squeeze(a, '，');
    var c := Squeeze(b, '；');
    var d := Squeeze(c, '：');
    SqueezeCloses(u, '。');
    SqueezeCloses(a, '，');
    SqueezeCloses(b, '；');
    SqueezeCloses(c, '：');
    SqueezeUtf8(u, '。');
    SqueezeUtf8(a, '，');
    SqueezeUtf8(b, '；');
    SqueezeUtf8(c, '：');
    TrimTrims(d);
  }

  /** The displayed text is what lies outside the citations, closed up before 。，；： and
      trimmed. */
  lemma {:induction false} ShownExact(text: Text) returns (outside: Text)
    requires Utf8(text)
    ensures Spread(Tokens(text, 0), 0, |text|)
    ensures Outside(text, 0, Tokens(text, 0), outside)
    ensures Tidied(outside, Tidy(Removed(text, Tokens(text, 0), 0)))
  {
    TokensOrdered(text, 0);
    outside := Removed(text, Tokens(text, 0), 0);
    RemovedIsOutside(text, Tokens(text, 0), 0);
    RemovedUtf8(text, Tokens(text, 0), 0);
    TidyTidies(outside);
  }

  lemma {:induction false} RemovedUtf8(t: Text, toks: seq<Token>, cursor: nat)
    requires Utf8(t) && cursor <= |t| && Boundary(t, cursor) && Spread(toks, cursor, |t|) && Literal(toks, t)
    ensures Utf8(Removed(t, toks, cursor))
    decreases |toks|
  {
    if toks == [] {
      SliceUtf8(t, cursor, |t|);
      assert t[cursor..|t|] == t[cursor..];
    } else {
      TokenEdges(t, toks);
      SliceUtf8(t, cursor, toks[0].start);
      assert forall k :: 0 <= k < |toks[1..]| ==> toks[1..][k] == toks[k + 1];
      RemovedUtf8(t, toks[1..], toks[0].end);
      ConcatUtf8(t[cursor..toks[0].start], Removed(t, toks[1..], toks[0].end));
    }
  }

  lemma {:induction false} TokenEdges(t: Text, toks: seq<Token>)
    requires Utf8(t) && toks != [] && Literal(toks, t) && toks[0].start < toks[0].end
    ensures Boundary(t, toks[0].start) && Boundary(t, toks[0].end)
  {
    var s := t[toks[0].start..toks[0].end];
    assert s[0] == t[toks[0].start] && s[|s| - 1] == t[toks[0].end - 1];
    assert Whole(t, toks[0].end - 1);
  }
}
