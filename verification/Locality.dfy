/** The tokenizer is local: cutting the masked text at a clause boundary on the left and
    at a masked citation on the right changes no claim. */
module Locality {
  import opened Text
  import opened Claims

  function Shifted(cs: seq<Claim>, d: nat): seq<Claim> {
    if cs == [] then []
    else [Claim(cs[0].what, cs[0].start + d, cs[0].end + d)] + Shifted(cs[1..], d)
  }

  /** A sentence stop or a blank: characters no claim reaches across. */
  predicate Neutral(c: char) {
    IsStop(c) || c == ' '
  }

  /** The cut `a..b` of `w`: on its left the text starts or a neutral character stands,
      on its right two blanks (a masked citation is at least three bytes long). */
  ghost predicate Cut(w: Text, a: nat, b: nat) {
    && Utf8(w) && a <= b && b + 1 < |w|
    && Boundary(w, a) && Boundary(w, b)
    && w[b] == SPACE && w[b + 1] == SPACE
    && NoNeighbour(CharBefore(w, a))
  }

  predicate NoNeighbour(c: Option<char>) {
    c == None || Neutral(c.value)
  }

  /** A neutral character occupies exactly the bytes `p..a`. */
  ghost predicate NeutralBefore(w: Text, p: nat, a: nat) {
    p < a <= |w| && w[p].Lead? && Neutral(w[p].ch) && a == p + Width(w[p].ch)
  }

  /** The same character, except that the cut end reads as a blank in the whole text. */
  predicate Same(cut: Option<char>, whole: Option<char>) {
    cut == whole || (cut == None && whole == Some(' '))
  }

  lemma {:induction false} CharBeforeCut(w: Text, a: nat, b: nat, i: nat)
    requires a <= b <= |w| && 0 < i <= b - a && w[a].Lead?
    ensures CharBefore(w, a + i) == CharBefore(w[a..b], i)
  {
    if w[a + i - 1].Cont? {
      CharBeforeCut(w, a, b, i - 1);
    }
  }

  /** `CharBefore` finds a character that starts somewhere before and reaches up to `a`. */
  lemma {:induction false} CharBeforeStart(w: Text, a: nat, k: nat) returns (p: nat)
    requires Utf8(w) && Boundary(w, a) && 0 < k <= a <= |w|
    requires forall i :: k <= i < a ==> w[i].Cont?
    ensures p < a && w[p].Lead? && a == p + Width(w[p].ch) && CharBefore(w, k) == Some(w[p].ch)
    decreases k
  {
    if w[k - 1].Lead? {
      p := k - 1;
      assert Whole(w, p);
    } else {
      p := CharBeforeStart(w, a, k - 1);
    }
  }

  /** What precedes byte `i` of the cut, seen from inside and from the whole text. */
  predicate SamePrev(cut: Option<char>, whole: Option<char>) {
    cut == whole || (cut == None && NoNeighbour(whole))
  }

  lemma {:induction false} PrevSame(w: Text, a: nat, b: nat, i: nat)
    requires Cut(w, a, b) && i <= b - a
    ensures SamePrev(CharBefore(w[a..b], i), CharBefore(w, a + i))
  {
    if i > 0 {
      CharBeforeCut(w, a, b, i);
    }
  }

  lemma {:induction false} CharSame(w: Text, a: nat, b: nat, i: nat)
    requires Cut(w, a, b) && i <= b - a
    ensures Same(CharAt(w[a..b], i), CharAt(w, a + i))
    ensures i < b - a ==> CharAt(w[a..b], i) == CharAt(w, a + i)
    ensures i == b - a ==> CharAt(w, a + i) == Some(' ')
  {
  }

  /** Characters of the whole text that start inside the cut end inside it. */
  lemma {:induction false} WidthInside(w: Text, a: nat, b: nat, i: nat)
    requires Cut(w, a, b) && i < b - a && w[a + i].Lead?
    ensures i + Width(w[a + i].ch) <= b - a
  {
    assert Whole(w, a + i);
  }

  lemma {:induction false} TokenStartSame(w: Text, a: nat, b: nat, i: nat)
    requires Cut(w, a, b) && i < b - a
    ensures TokenStart(w, a + i) <==> TokenStart(w[a..b], i)
    ensures TokenStart(w, a + i) ==> DigitsStart(w, a + i) == a + DigitsStart(w[a..b], i)
  {
    PrevSame(w, a, b, i);
    if w[a + i].Lead? {
      WidthInside(w, a, b, i);
    }
  }

  lemma {:induction false} NumberEndSame(w: Text, a: nat, b: nat, i: nat, dot: bool)
    requires a <= b < |w| && w[b] == SPACE && i <= b - a
    ensures NumberEnd(w, a + i, dot) == a + NumberEnd(w[a..b], i, dot)
    decreases b - a - i
  {
    if i < b - a && w[a + i].Lead? {
      var c := w[a + i].ch;
      if IsDigit(c) || c == ',' {
        NumberEndSame(w, a, b, i + 1, dot);
      } else if c == '.' && !dot && DigitAt(w, a + i + 1) {
        NumberEndSame(w, a, b, i + 1, true);
      }
    }
  }

  lemma {:induction false} MeaningSame(raw: Text, number: Text, prev: Option<char>, prev': Option<char>,
                                       next: Option<char>, next': Option<char>,
                                       unit: Option<char>, unit': Option<char>,
                                       after: Option<char>, after': Option<char>)
    requires SamePrev(prev, prev') && Same(next, next') && Same(unit, unit') && Same(after, after')
    ensures Meaning(raw, number, prev, next, unit, after) == Meaning(raw, number, prev', next', unit', after')
  {
  }

  /** The unit character and the one after it. */
  lemma {:induction false} UnitSame(w: Text, a: nat, b: nat, e: nat)
    requires Cut(w, a, b) && e <= b - a
    ensures var u, u' := UnitIndex(w[a..b], e), UnitIndex(w, a + e);
      && Same(CharAt(w[a..b], u), CharAt(w, u'))
      && (CharAt(w[a..b], u) != None ==>
            Same(CharAt(w[a..b], After(w[a..b], u)), CharAt(w, After(w, u'))))
  {
    CharSame(w, a, b, e);
    if e < b - a {
      var u := UnitIndex(w[a..b], e);
      if w[a + e].Lead? {
        WidthInside(w, a, b, e);
      }
      CharSame(w, a, b, u);
      if u < b - a && w[a + u].Lead? {
        WidthInside(w, a, b, u);
        CharSame(w, a, b, u + Width(w[a + u].ch));
      }
    }
  }

  lemma {:induction false} MeaningNoUnit(raw: Text, number: Text, prev: Option<char>, next: Option<char>,
                                         unit: Option<char>, after: Option<char>, after': Option<char>)
    requires unit == None || unit == Some(' ')
    ensures Meaning(raw, number, prev, next, unit, after) == Meaning(raw, number, prev, next, unit, after')
  {
  }

  lemma {:induction false} SliceOfSlice(w: Text, a: nat, b: nat, i: nat, j: nat)
    requires a <= b <= |w| && i <= j <= b - a
    ensures w[a..b][i..j] == w[a + i..a + j]
  {
    var x, y := w[a..b][i..j], w[a + i..a + j];
    forall k | 0 <= k < j - i
      ensures x[k] == y[k]
    {
      assert x[k] == w[a..b][i + k];
    }
  }

  lemma {:induction false} ClaimAtSame(w: Text, a: nat, b: nat, i: nat, d: nat, e: nat)
    requires Cut(w, a, b) && i <= d < e <= b - a
    ensures ClaimAt(w, a + i, a + d, a + e) == ClaimAt(w[a..b], i, d, e)
  {
    var s := w[a..b];
    PrevSame(w, a, b, i);
    CharSame(w, a, b, e);
    UnitSame(w, a, b, e);
    SliceOfSlice(w, a, b, i, e);
    SliceOfSlice(w, a, b, d, e);
    var u, u' := UnitIndex(s, e), UnitIndex(w, a + e);
    ClaimMeaning(s[i..e], s[d..e], CharBefore(s, i), CharBefore(w, a + i), CharAt(s, e), CharAt(w, a + e),
                 CharAt(s, u), CharAt(w, u'), CharAt(s, After(s, u)), CharAt(w, After(w, u')));
  }

  lemma {:induction false} ClaimMeaning(raw: Text, number: Text, prev: Option<char>, prev': Option<char>,
                                        next: Option<char>, next': Option<char>,
                                        unit: Option<char>, unit': Option<char>,
                                        after: Option<char>, after': Option<char>)
    requires SamePrev(prev, prev') && Same(next, next') && Same(unit, unit')
    requires unit != None ==> Same(after, after')
    ensures Meaning(raw, number, prev, next, unit, after) == Meaning(raw, number, prev', next', unit', after')
  {
    if unit == None {
      MeaningNoUnit(raw, number, prev, next, unit, after, None);
      MeaningNoUnit(raw, number, prev', next', unit', after', None);
      MeaningSame(raw, number, prev, prev', next, next', unit, unit', None, None);
    } else {
      MeaningSame(raw, number, prev, prev', next, next', unit, unit', after, after');
    }
  }

  // ---------- claims within a range ----------

  /** The claims that lie in bytes `a..b`. */
  function Within(cs: seq<Claim>, a: nat, b: nat): seq<Claim> {
    if cs == [] then []
    else if a <= cs[0].start && cs[0].end <= b then [cs[0]] + Within(cs[1..], a, b)
    else Within(cs[1..], a, b)
  }

  ghost predicate StartFrom(cs: seq<Claim>, a: nat) {
    cs == [] || (a <= cs[0].start < cs[0].end && StartFrom(cs[1..], a))
  }

  lemma {:induction false} StartFromWeaken(cs: seq<Claim>, a: nat, b: nat)
    requires StartFrom(cs, b) && a <= b
    ensures StartFrom(cs, a)
  {
    if cs != [] {
      StartFromWeaken(cs[1..], a, b);
    }
  }

  lemma {:induction false} WithinNoneAfter(cs: seq<Claim>, a: nat, b: nat)
    requires StartFrom(cs, b)
    ensures Within(cs, a, b) == []
  {
    if cs != [] {
      WithinNoneAfter(cs[1..], a, b);
    }
  }

  lemma {:induction false} WithinPrepend(what: Option<What>, rest: seq<Claim>, start: nat, end: nat, a: nat, b: nat)
    ensures Within(Prepend(what, start, end, rest), a, b) ==
      if a <= start && end <= b then Prepend(what, start, end, Within(rest, a, b)) else Within(rest, a, b)
  {
    if what.Some? {
      assert Prepend(what, start, end, rest)[1..] == rest;
    }
  }

  lemma {:induction false} ShiftedPrepend(what: Option<What>, rest: seq<Claim>, start: nat, end: nat, d: nat)
    ensures Shifted(Prepend(what, start, end, rest), d) == Prepend(what, start + d, end + d, Shifted(rest, d))
  {
    if what.Some? {
      assert Prepend(what, start, end, rest)[1..] == rest;
    }
  }

  /** One claim of the cut and of the whole text, in front of what agrees. */
  lemma {:induction false} PrependSame(what: Option<What>, i: nat, e: nat,
                                       outer: seq<Claim>, inner: seq<Claim>, a: nat, b: nat)
    requires Within(outer, a, b) == Shifted(inner, a)
    requires what.Some? ==> a + e <= b
    ensures Within(Prepend(what, a + i, a + e, outer), a, b) == Shifted(Prepend(what, i, e, inner), a)
  {
    WithinPrepend(what, outer, a + i, a + e, a, b);
    ShiftedPrepend(what, inner, i, e, a);
  }

  // ---------- numbers ----------

  /** One token, read inside the cut and in the whole text. */
  lemma {:induction false} TokenSame(w: Text, a: nat, b: nat, i: nat) returns (what: Option<What>, e: nat)
    requires Cut(w, a, b) && i < b - a && TokenStart(w, a + i)
    ensures i < e <= b - a
    ensures Numbers(w[a..b], i) == Prepend(what, i, e, Numbers(w[a..b], e))
    ensures Numbers(w, a + i) == Prepend(what, a + i, a + e, Numbers(w, a + e))
  {
    var d;
    d, e := TokenSpan(w, a, b, i);
    ClaimAtSame(w, a, b, i, d, e);
    what := ClaimAt(w[a..b], i, d, e);
    NumbersStep(w[a..b], i, d, e, what);
    NumbersStep(w, a + i, a + d, a + e, what);
  }

  lemma {:induction false} TokenSpan(w: Text, a: nat, b: nat, i: nat) returns (d: nat, e: nat)
    requires Cut(w, a, b) && i < b - a && TokenStart(w, a + i)
    ensures TokenStart(w[a..b], i) && i <= d < e <= b - a
    ensures d == DigitsStart(w[a..b], i) && e == NumberEnd(w[a..b], d, false)
    ensures a + d == DigitsStart(w, a + i) && a + e == NumberEnd(w, a + d, false)
  {
    TokenStartSame(w, a, b, i);
    d := DigitsStart(w[a..b], i);
    e := NumberEnd(w[a..b], d, false);
    NumberEndSame(w, a, b, d, false);
  }

  lemma {:induction false} NumbersStep(t: Text, i: nat, d: nat, e: nat, what: Option<What>)
    requires i < |t| && TokenStart(t, i) && d == DigitsStart(t, i) && e == NumberEnd(t, d, false)
    requires what == ClaimAt(t, i, d, e)
    ensures Numbers(t, i) == Prepend(what, i, e, Numbers(t, e))
  {
  }

  lemma {:induction false} NumbersToken(t: Text, i: nat)
    requires i < |t| && TokenStart(t, i)
    ensures var d := DigitsStart(t, i);
      var e := NumberEnd(t, d, false);
      Numbers(t, i) == Prepend(ClaimAt(t, i, d, e), i, e, Numbers(t, e))
  {
  }

  lemma {:induction false} NumbersFrom(t: Text, i: nat)
    requires i <= |t|
    ensures StartFrom(Numbers(t, i), i)
    decreases |t| - i
  {
    if i < |t| {
      if TokenStart(t, i) {
        var e := NumberEnd(t, DigitsStart(t, i), false);
        NumbersFrom(t, e);
        NumbersToken(t, i);
        StartFromPrepend(ClaimAt(t, i, DigitsStart(t, i), e), i, e, Numbers(t, e));
      } else {
        NumbersFrom(t, i + 1);
        StartFromWeaken(Numbers(t, i + 1), i, i + 1);
      }
    }
  }

  lemma {:induction false} StartFromPrepend(what: Option<What>, i: nat, e: nat, rest: seq<Claim>)
    requires i < e && StartFrom(rest, e)
    ensures StartFrom(Prepend(what, i, e, rest), i)
  {
    StartFromWeaken(rest, i, e);
    if what.Some? {
      assert Prepend(what, i, e, rest)[1..] == rest;
    }
  }

  /** From any byte of the cut on, the whole text's claims in the range are the cut's. */
  lemma {:induction false} NumbersInside(w: Text, a: nat, b: nat, i: nat)
    requires Cut(w, a, b) && i <= b - a
    ensures Within(Numbers(w, a + i), a, b) == Shifted(Numbers(w[a..b], i), a)
    decreases b - a - i
  {
    if i == b - a {
      NumbersFrom(w, b);
      WithinNoneAfter(Numbers(w, b), a, b);
    } else {
      TokenStartSame(w, a, b, i);
      if TokenStart(w, a + i) {
        var what, e := TokenSame(w, a, b, i);
        NumbersInside(w, a, b, e);
        PrependSame(what, i, e, Numbers(w, a + e), Numbers(w[a..b], e), a, b);
      } else {
        NumbersInside(w, a, b, i + 1);
      }
    }
  }

  lemma {:induction false} NumberEndBefore(w: Text, i: nat, dot: bool, p: nat)
    requires i <= p < |w| && w[p].Lead? && Neutral(w[p].ch)
    ensures NumberEnd(w, i, dot) <= p
    decreases p - i
  {
    if i < p && w[i].Lead? {
      var c := w[i].ch;
      if IsDigit(c) || c == ',' {
        NumberEndBefore(w, i + 1, dot, p);
      } else if c == '.' && !dot && DigitAt(w, i + 1) {
        NumberEndBefore(w, i + 1, true, p);
      }
    }
  }

  lemma {:induction false} TokenBefore(w: Text, i: nat, p: nat, a: nat)
    requires Utf8(w) && NeutralBefore(w, p, a) && i < a && TokenStart(w, i)
    ensures i < p && NumberEnd(w, DigitsStart(w, i), false) <= p
  {
    assert Whole(w, p);
    assert i < p;
    assert Whole(w, i);
    NumberEndBefore(w, DigitsStart(w, i), false, p);
  }

  /** Nothing read before the cut reaches into it. */
  lemma {:induction false} NumbersBefore(w: Text, i: nat, p: nat, a: nat, b: nat)
    requires Utf8(w) && NeutralBefore(w, p, a) && i <= a
    ensures Within(Numbers(w, i), a, b) == Within(Numbers(w, a), a, b)
    decreases a - i
  {
    if i < a {
      if TokenStart(w, i) {
        TokenBefore(w, i, p, a);
        var d := DigitsStart(w, i);
        var e := NumberEnd(w, d, false);
        NumbersBefore(w, e, p, a, b);
        NumbersToken(w, i);
        WithinPrepend(ClaimAt(w, i, d, e), Numbers(w, e), i, e, a, b);
      } else {
        NumbersBefore(w, i + 1, p, a, b);
      }
    }
  }

  /** Tokenizer locality: the numeric claims of the cut alone are exactly the whole
      text's claims in that range, with the same span, value, unit and spelling. */
  lemma {:induction false} NumbersLocal(w: Text, a: nat, b: nat)
    requires Cut(w, a, b)
    ensures Shifted(Numbers(w[a..b], 0), a) == Within(Numbers(w, 0), a, b)
  {
    NumbersInside(w, a, b, 0);
    if a > 0 {
      var p := CharBeforeStart(w, a, a);
      NumbersBefore(w, 0, p, a, b);
    }
  }

  // ---------- cue words ----------

  lemma {:induction false} KindPlain(a: char, b: char)
    requires KindOf(a, b).Some?
    ensures !Neutral(a) && !Neutral(b) && Width(a) == 3 && Width(b) == 3
  {
  }

  lemma {:induction false} CueAtSame(w: Text, a: nat, b: nat, i: nat)
    requires Cut(w, a, b) && i < b - a
    ensures CueAt(w, a + i) == CueAt(w[a..b], i)
    ensures CueAt(w, a + i).Some? ==> i + 6 <= b - a
  {
    if w[a + i].Lead? && IsLead(w, a + i + 3) && KindOf(w[a + i].ch, w[a + i + 3].ch).Some? {
      KindPlain(w[a + i].ch, w[a + i + 3].ch);
      WidthInside(w, a, b, i);
      assert a + i + 3 != b;
      WidthInside(w, a, b, i + 3);
    }
  }

  lemma {:induction false} CuesInside(w: Text, a: nat, b: nat, i: nat)
    requires Cut(w, a, b) && i <= b - a
    ensures Within(Cues(w, a + i), a, b) == Shifted(Cues(w[a..b], i), a)
    decreases b - a - i
  {
    if i == b - a {
      CuesFrom(w, b);
      WithinNoneAfter(Cues(w, b), a, b);
    } else {
      CueAtSame(w, a, b, i);
      CuesInside(w, a, b, i + 1);
      PrependSame(CueAt(w, a + i), i, i + 6, Cues(w, a + i + 1), Cues(w[a..b], i + 1), a, b);
    }
  }

  lemma {:induction false} CuesBefore(w: Text, i: nat, a: nat, b: nat)
    requires i <= a <= |w|
    ensures Within(Cues(w, i), a, b) == Within(Cues(w, a), a, b)
    decreases a - i
  {
    if i < a {
      CuesBefore(w, i + 1, a, b);
      WithinPrepend(CueAt(w, i), Cues(w, i + 1), i, i + 6, a, b);
    }
  }

  lemma {:induction false} CuesFrom(t: Text, i: nat)
    requires i <= |t|
    ensures StartFrom(Cues(t, i), i)
    decreases |t| - i
  {
    if i < |t| {
      CuesFrom(t, i + 1);
      StartFromWeaken(Cues(t, i + 1), i, i + 1);
      if CueAt(t, i).Some? {
        assert Cues(t, i)[1..] == Cues(t, i + 1);
      }
    }
  }

  /** The scan for cue words is local in the same way. */
  lemma {:induction false} CuesLocal(w: Text, a: nat, b: nat)
    requires Cut(w, a, b)
    ensures Shifted(Cues(w[a..b], 0), a) == Within(Cues(w, 0), a, b)
  {
    CuesInside(w, a, b, 0);
    CuesBefore(w, 0, a, b);
  }
}
