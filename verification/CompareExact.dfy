/** When two values of a result set are taken for the same, said of their texts, and the
    verdict on two result sets in those terms (tools/evaluation.py:367-425). */
module CompareExact {
  import opened PyText
  import opened ResultCompare

  // ---------- texts without their trimmings ----------

  predicate AllSpace(s: string) { forall k :: 0 <= k < |s| ==> IsSpace(s[k]) }

  predicate AllPercent(s: string) { forall k :: 0 <= k < |s| ==> s[k] == '%' }

  predicate AllCurrency(s: string) { forall k :: 0 <= k < |s| ==> s[k] == '¥' || s[k] == '$' }

  /** `core` is `text` without the white space at its ends. */
  ghost predicate Trims(text: string, core: string) {
    exists a, b :: TrimsBy(text, a, core, b)
  }

  predicate TrimsBy(text: string, a: string, core: string, b: string) {
    && text == a + (core + b) && AllSpace(a) && AllSpace(b)
    && (core != "" ==> !IsSpace(core[0]) && !IsSpace(core[|core| - 1]))
  }

  /** `t` is `s` with its commas left out. */
  predicate DropsCommas(s: string, t: string)
    decreases |s|
  {
    if s == "" then t == ""
    else if s[0] == ',' then DropsCommas(s[1..], t)
    else t != "" && t[0] == s[0] && DropsCommas(s[1..], t[1..])
  }

  /** The text's number: without the percent signs behind it, the commas in it, and then the
      currency signs before it. */
  ghost predicate Presents(core: string, body: string) {
    exists x, pct, cur :: PresentsBy(core, x, pct, cur, body)
  }

  predicate PresentsBy(core: string, x: string, pct: string, cur: string, body: string) {
    && core == x + pct && AllPercent(pct) && (x != "" ==> x[|x| - 1] != '%')
    && DropsCommas(x, cur + body)
    && AllCurrency(cur) && (body != "" ==> body[0] != '¥' && body[0] != '$')
  }

  lemma {:induction false} LStripBy(s: string) returns (a: string)
    ensures s == a + LStrip(s) && AllSpace(a)
  {
    a := "";
    if s != "" && IsSpace(s[0]) {
      var b := LStripBy(s[1..]);
      a := [s[0]] + b;
    }
  }

  lemma {:induction false} RStripBy(s: string) returns (core: string, b: string)
    ensures core == RStrip(s) && s == core + b && AllSpace(b) && (core != "" ==> !IsSpace(core[|core| - 1]))
    decreases |s|
  {
    core, b := s, "";
    if s != "" && IsSpace(s[|s| - 1]) {
      var n := |s| - 1;
      core, b := RStripBy(s[..n]);
      LastBack(s, core, b);
      b := b + [s[n]];
    }
  }

  lemma {:induction false} LastBack(s: string, core: string, b: string)
    requires s != "" && s[..|s| - 1] == core + b
    ensures s == core + (b + [s[|s| - 1]])
  {
    assert s == s[..|s| - 1] + [s[|s| - 1]];
  }

  lemma {:induction false} StripTrims(text: string)
    ensures Trims(text, Strip(text))
  {
    var a := LStripBy(text);
    LStripHead(text);
    var core, b := RStripBy(LStrip(text));
    if LStrip(text) != "" {
      RStripKeeps(LStrip(text));
    }
    assert TrimsBy(text, a, Strip(text), b);
  }

  lemma {:induction false} InkAt(text: string, a: string, core: string, b: string)
    requires TrimsBy(text, a, core, b)
    ensures core == "" ==> AllSpace(text)
    ensures core != "" ==>
      && |a| < |text| && !IsSpace(text[|a|]) && (forall k :: 0 <= k < |a| ==> IsSpace(text[k]))
      && |b| < |text| && !IsSpace(text[|text| - |b| - 1]) && (forall k :: |text| - |b| <= k < |text| ==> IsSpace(text[k]))
      && core == text[|a|..|text| - |b|]
  {
    if core != "" {
      assert text[|a|] == core[0] && text[|text| - |b| - 1] == core[|core| - 1];
      assert forall k :: 0 <= k < |a| ==> text[k] == a[k];
      assert forall k :: |text| - |b| <= k < |text| ==> text[k] == b[k - (|text| - |b|)];
    } else {
      assert text == a + b;
    }
  }

  lemma {:induction false} OneTrim(text: string, core: string, other: string)
    requires Trims(text, core) && Trims(text, other)
    ensures core == other
  {
    var a, b :| TrimsBy(text, a, core, b);
    var c, d :| TrimsBy(text, c, other, d);
    InkAt(text, a, core, b);
    InkAt(text, c, other, d);
  }

  lemma {:induction false} PercentBy(s: string) returns (pct: string)
    ensures s == WithoutPercent(s) + pct && AllPercent(pct)
    ensures WithoutPercent(s) != "" ==> WithoutPercent(s)[|WithoutPercent(s)| - 1] != '%'
    decreases |s|
  {
    pct := "";
    if s != "" && s[|s| - 1] == '%' {
      var n := |s| - 1;
      var p := PercentBy(s[..n]);
      pct := p + [s[n]];
      assert s == s[..n] + [s[n]];
    }
  }

  lemma {:induction false} CommasDropped(s: string)
    ensures DropsCommas(s, WithoutCommas(s))
  {
    if s != "" {
      CommasDropped(s[1..]);
      if s[0] != ',' {
        assert WithoutCommas(s)[1..] == WithoutCommas(s[1..]);
      }
    }
  }

  lemma {:induction false} CurrencyBy(s: string) returns (cur: string)
    ensures s == cur + WithoutCurrency(s) && AllCurrency(cur)
    ensures WithoutCurrency(s) != "" ==> WithoutCurrency(s)[0] != '¥' && WithoutCurrency(s)[0] != '$'
  {
    cur := "";
    if s != "" && (s[0] == '¥' || s[0] == '$') {
      var c := CurrencyBy(s[1..]);
      cur := [s[0]] + c;
    }
  }

  function Body(core: string): string { WithoutCurrency(WithoutCommas(WithoutPercent(core))) }

  lemma {:induction false} BodyPresents(core: string)
    ensures Presents(core, Body(core))
  {
    var pct := PercentBy(core);
    CommasDropped(WithoutPercent(core));
    var cur := CurrencyBy(WithoutCommas(WithoutPercent(core)));
    assert PresentsBy(core, WithoutPercent(core), pct, cur, Body(core));
  }

  lemma {:induction false} OneBody(core: string, body: string)
    requires Presents(core, body)
    ensures body == Body(core)
  {
    var x, pct, cur :| PresentsBy(core, x, pct, cur, body);
    PercentOff(core, x, pct);
    CommasOff(x, cur + body);
    CurrencyOff(cur, body);
  }

  lemma {:induction false} PercentOff(core: string, x: string, pct: string)
    requires core == x + pct && AllPercent(pct) && (x != "" ==> x[|x| - 1] != '%')
    ensures WithoutPercent(core) == x
    decreases |pct|
  {
    if pct != "" {
      var n := |core| - 1;
      assert core[..n] == x + pct[..|pct| - 1] && core[n] == pct[|pct| - 1];
      PercentOff(core[..n], x, pct[..|pct| - 1]);
    } else {
      assert core == x;
    }
  }

  lemma {:induction false} CommasOff(s: string, t: string)
    requires DropsCommas(s, t)
    ensures WithoutCommas(s) == t
    decreases |s|
  {
    if s != "" {
      if s[0] == ',' {
        CommasOff(s[1..], t);
      } else {
        CommasOff(s[1..], t[1..]);
      }
    }
  }

  lemma {:induction false} CurrencyOff(cur: string, body: string)
    requires AllCurrency(cur) && (body != "" ==> body[0] != '¥' && body[0] != '$')
    ensures WithoutCurrency(cur + body) == body
  {
    if cur == "" {
      assert cur + body == body;
    } else {
      assert (cur + body)[0] == cur[0] && (cur + body)[1..] == cur[1..] + body;
      CurrencyOff(cur[1..], body);
    }
  }

  // ---------- the same value ----------

  /** Apart by at most half a per cent of `m`. */
  predicate Apart(x: real, y: real, m: real) { 200.0 * (x - y) <= m && 200.0 * (y - x) <= m }

  /** Apart by at most half a per cent of the larger, or of a billionth. */
  predicate Alike(x: real, y: real) {
    Apart(x, y, x) || Apart(x, y, -x) || Apart(x, y, y) || Apart(x, y, -y) || Apart(x, y, 0.000000001)
  }

  /** The text reads as number `x`. */
  ghost predicate ReadsAs(text: string, x: real, reader: Reader) {
    exists core, body :: Trims(text, core) && Presents(core, body) && reader(body) == Some(x)
  }

  ghost predicate IsText(text: string, core: string, reader: Reader) {
    Trims(text, core) && forall x :: !ReadsAs(text, x, reader)
  }

  /** Both are null; or both read as numbers that are alike; or neither does and both are the
      same text, white space at the ends aside. */
  ghost predicate SameValue(v: Value, w: Value, reader: Reader) {
    if v.None? || w.None? then v == w
    else
      || (exists x, y :: ReadsAs(v.value, x, reader) && ReadsAs(w.value, y, reader) && Alike(x, y))
      || (exists core :: IsText(v.value, core, reader) && IsText(w.value, core, reader))
  }

  lemma {:induction false} AlikeIs(x: real, y: real)
    ensures Close(Number(x), Number(y)) <==> Alike(x, y)
  {
    var m := Larger(Larger(Abs(x), Abs(y)), TINY);
    Quotient(Abs(x - y), m);
  }

  lemma {:induction false} Quotient(d: real, m: real)
    requires m > 0.0
    ensures d / m <= TOLERANCE <==> 200.0 * d <= m
  {
    var q := d / m;
    assert d == q * m;
    if q <= 0.005 {
      assert q * m <= 0.005 * m;
    } else {
      assert q * m > 0.005 * m;
    }
  }

  lemma {:induction false} ReadsAsIs(text: string, x: real, reader: Reader)
    ensures ReadsAs(text, x, reader) <==> CellOf(Some(text), reader) == Number(x)
  {
    StripTrims(text);
    BodyPresents(Strip(text));
    if ReadsAs(text, x, reader) {
      var core, body :| Trims(text, core) && Presents(core, body) && reader(body) == Some(x);
      OneTrim(text, core, Strip(text));
      OneBody(core, body);
    }
  }

  lemma {:induction false} IsTextIs(text: string, core: string, reader: Reader)
    ensures IsText(text, core, reader) <==> CellOf(Some(text), reader) == Words(core)
  {
    StripTrims(text);
    forall x
      ensures ReadsAs(text, x, reader) <==> CellOf(Some(text), reader) == Number(x)
    {
      ReadsAsIs(text, x, reader);
    }
    if Trims(text, core) {
      OneTrim(text, core, Strip(text));
    }
  }

  /** Cells are close exactly if the values are the same in this sense. */
  lemma {:induction false} CloseIsSame(v: Value, w: Value, reader: Reader)
    ensures Close(CellOf(v, reader), CellOf(w, reader)) <==> SameValue(v, w, reader)
  {
    if v.Some? && w.Some? {
      var a, b := CellOf(v, reader), CellOf(w, reader);
      if SameValue(v, w, reader) {
        if x, y :| ReadsAs(v.value, x, reader) && ReadsAs(w.value, y, reader) && Alike(x, y) {
          ReadsAsIs(v.value, x, reader);
          ReadsAsIs(w.value, y, reader);
          AlikeIs(x, y);
        } else {
          var core :| IsText(v.value, core, reader) && IsText(w.value, core, reader);
          IsTextIs(v.value, core, reader);
          IsTextIs(w.value, core, reader);
        }
      }
      if Close(a, b) {
        CloseGivesSame(v.value, w.value, reader);
      }
    }
  }

  lemma {:induction false} CloseGivesSame(s: string, t: string, reader: Reader)
    requires Close(CellOf(Some(s), reader), CellOf(Some(t), reader))
    ensures SameValue(Some(s), Some(t), reader)
  {
    var a, b := CellOf(Some(s), reader), CellOf(Some(t), reader);
    if a.Number? {
      ReadsAsIs(s, a.value, reader);
      ReadsAsIs(t, b.value, reader);
      AlikeIs(a.value, b.value);
    } else {
      IsTextIs(s, a.text, reader);
      IsTextIs(t, a.text, reader);
    }
  }

  // ---------- the verdict ----------

  ghost predicate SameRow(r: seq<Value>, s: seq<Value>, reader: Reader) {
    |r| == |s| && forall j :: 0 <= j < |r| ==> SameValue(r[j], s[j], reader)
  }

  /** The rows `p` lists are those `q` lists, value by value. */
  ghost predicate SameRows(got: seq<seq<Value>>, gold: seq<seq<Value>>, p: seq<nat>, q: seq<nat>, reader: Reader) {
    && Arrangement(p, |got|) && Arrangement(q, |gold|) && |got| == |gold|
    && forall k :: 0 <= k < |p| ==> SameRow(got[p[k]], gold[q[k]], reader)
  }

  lemma {:induction false} SameRowIs(r: seq<Value>, s: seq<Value>, reader: Reader)
    ensures CloseRows(RowOf(r, reader), RowOf(s, reader)) <==> SameRow(r, s, reader)
  {
    if |r| == |s| {
      forall j | 0 <= j < |r|
        ensures Close(RowOf(r, reader)[j], RowOf(s, reader)[j]) <==> SameValue(r[j], s[j], reader)
      {
        CloseIsSame(r[j], s[j], reader);
      }
    }
  }

  lemma {:induction false} SameRowsIs(got: seq<seq<Value>>, gold: seq<seq<Value>>, p: seq<nat>, q: seq<nat>, reader: Reader)
    ensures Paired(RowsOf(got, reader), RowsOf(gold, reader), p, q) <==> SameRows(got, gold, p, q, reader)
  {
    if Arrangement(p, |got|) && Arrangement(q, |gold|) && |got| == |gold| {
      forall k | 0 <= k < |p|
        ensures CloseRows(RowsOf(got, reader)[p[k]], RowsOf(gold, reader)[q[k]]) <==> SameRow(got[p[k]], gold[q[k]], reader)
      {
        SameRowIs(got[p[k]], gold[q[k]], reader);
      }
    }
  }

  /** Equal exactly if there is an expected row, all rows are equally wide, and both sides
      listed in order have the same values at every place. */
  lemma {:induction false} EqualInFull(got: seq<seq<Value>>, gold: seq<seq<Value>>, reader: Reader, leq: Order)
    requires Total(leq)
    ensures Judged(got, gold, reader, leq) == Equal <==>
      && gold != [] && |got| == |gold| && SameWidth(got, |gold[0]|) && SameWidth(gold, |gold[0]|)
      && exists p, q :: SameRows(got, gold, p, q, reader)
                        && ListsInOrder(RowsOf(got, reader), p, leq) && ListsInOrder(RowsOf(gold, reader), q, leq)
  {
    EqualExactly(got, gold, reader, leq);
    forall p, q
      ensures Paired(RowsOf(got, reader), RowsOf(gold, reader), p, q) <==> SameRows(got, gold, p, q, reader)
    {
      SameRowsIs(got, gold, p, q, reader);
    }
  }
}
