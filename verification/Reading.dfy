/** What the tokenizer reads, said of the bytes of a text: which stretches are numbers, what
    they are worth, which are passed over, and what unit the characters around them give
    (crates/agent/src/answer_contract.rs:1105-1188). */
module Reading {
  import opened Text
  import opened Numerals
  import opened Claims
  import opened Locality
  import opened Facts
  import opened Contract
  import opened Acceptance

  // ---------- printed numbers ----------

  /** A sign, figures before the point and figures behind it; no point if there are none. */
  datatype Printed = Printed(sign: Option<char>, whole: Text, frac: Text)

  predicate FigureAt(t: Text, i: nat) { DigitAt(t, i) || Is(t, i, ',') }

  /** Digits and commas, a digit first. */
  predicate Figures(t: Text) { DigitAt(t, 0) && forall k :: 0 <= k < |t| ==> FigureAt(t, k) }

  predicate WellFormed(x: Printed) {
    && (x.sign.Some? ==> x.sign.value == '+' || x.sign.value == '-' || x.sign.value == '−')
    && Figures(x.whole) && (x.frac == [] || Figures(x.frac))
  }

  function SignText(sign: Option<char>): Text {
    match sign
    case None => []
    case Some(c) => if c == '−' then [Lead(c), Cont, Cont] else [Lead(c)]
  }

  function PointText(frac: Text): Text { if frac == [] then [] else [Lead('.')] + frac }

  function Print(x: Printed): Text { SignText(x.sign) + (x.whole + PointText(x.frac)) }

  /** The number that digits spell, by their places. */
  function Spelt(ds: seq<char>): int
    requires forall d :: d in ds ==> IsDigit(d)
  {
    if ds == [] then 0 else (ds[0] as int - '0' as int) * Pow10(|ds| - 1) + Spelt(ds[1..])
  }

  lemma {:induction false} DigitsAreDigits(t: Text)
    ensures forall d :: d in DigitsOf(t) ==> IsDigit(d)
  {
    if t != [] {
      DigitsAreDigits(t[1..]);
    }
  }

  /** What a printed number is worth; commas count for nothing. */
  ghost function Amount(x: Printed): real {
    DigitsAreDigits(x.whole);
    DigitsAreDigits(x.frac);
    var w := Spelt(DigitsOf(x.whole)) as real + Spelt(DigitsOf(x.frac)) as real / Pow10(|DigitsOf(x.frac)|) as real;
    if x.sign == Some('-') || x.sign == Some('−') then -w else w
  }

  // ---------- their value ----------

  lemma {:induction false} MantissaPlaces(t: Text, acc: nat)
    ensures forall d :: d in DigitsOf(t) ==> IsDigit(d)
    ensures Mantissa(t, acc) == acc * Pow10(|DigitsOf(t)|) + Spelt(DigitsOf(t))
  {
    DigitsAreDigits(t);
    if t != [] {
      if t[0].Lead? && IsDigit(t[0].ch) {
        var ds, v := DigitsOf(t), t[0].ch as int - '0' as int;
        MantissaPlaces(t[1..], 10 * acc + v);
        assert ds[1..] == DigitsOf(t[1..]);
        Shifts(acc, v, Pow10(|ds| - 1));
      } else {
        MantissaPlaces(t[1..], acc);
      }
    }
  }

  lemma {:induction false} Shifts(acc: nat, v: nat, p: nat)
    ensures (10 * acc + v) * p == acc * (10 * p) + v * p
  {
  }

  lemma {:induction false} MantissaCat(a: Text, b: Text, acc: nat)
    ensures Mantissa(a + b, acc) == Mantissa(b, Mantissa(a, acc))
  {
    if a == [] {
      assert a + b == b;
    } else {
      assert (a + b)[0] == a[0] && (a + b)[1..] == a[1..] + b;
      MantissaCat(a[1..], b, if a[0].Lead? && IsDigit(a[0].ch) then 10 * acc + (a[0].ch as int - '0' as int) else acc);
    }
  }

  lemma {:induction false} DigitCountIs(t: Text)
    ensures DigitCount(t) == |DigitsOf(t)|
  {
    if t != [] {
      DigitCountIs(t[1..]);
    }
  }

  lemma {:induction false} SignSilent(sign: Option<char>, rest: Text)
    requires sign.Some? ==> sign.value == '+' || sign.value == '-' || sign.value == '−'
    ensures Mantissa(SignText(sign) + rest, 0) == Mantissa(rest, 0)
    ensures Find(SignText(sign) + rest, 0, '.') == |SignText(sign)| + Find(rest, 0, '.')
  {
    var s := SignText(sign);
    MantissaCat(s, rest, 0);
    SignMantissa(sign);
    FindBehind(s, rest, 0);
  }

  lemma {:induction false} SignMantissa(sign: Option<char>)
    requires sign.Some? ==> sign.value == '+' || sign.value == '-' || sign.value == '−'
    ensures Mantissa(SignText(sign), 0) == 0 && forall k :: 0 <= k < |SignText(sign)| ==> SignText(sign)[k] != Lead('.')
  {
    var s := SignText(sign);
    if s != [] && |s| > 1 {
      assert s[1..] == [Cont, Cont] && s[1..][1..] == [Cont];
      assert Mantissa([Cont], 0) == 0;
    }
  }

  lemma {:induction false} FindBehind(a: Text, b: Text, i: nat)
    requires i <= |a| && forall k :: i <= k < |a| ==> a[k] != Lead('.')
    ensures Find(a + b, i, '.') == |a| + Find(b, 0, '.')
    decreases |a| - i
  {
    if i < |a| {
      FindBehind(a, b, i + 1);
    } else {
      FindShift(a, b, 0);
    }
  }

  lemma {:induction false} FindShift(a: Text, b: Text, j: nat)
    requires j <= |b|
    ensures Find(a + b, |a| + j, '.') == |a| + Find(b, j, '.')
    decreases |b| - j
  {
    if j < |b| {
      assert (a + b)[|a| + j] == b[j];
      if b[j] != Lead('.') {
        FindShift(a, b, j + 1);
      }
    }
  }

  lemma {:induction false} FiguresNoPoint(t: Text)
    requires forall k :: 0 <= k < |t| ==> FigureAt(t, k)
    ensures forall k :: 0 <= k < |t| ==> t[k] != Lead('.')
  {
    assert forall k :: 0 <= k < |t| ==> FigureAt(t, k) && t[k] != Lead('.');
  }

  lemma {:induction false} PointFound(x: Printed)
    requires WellFormed(x)
    ensures Find(x.whole + PointText(x.frac), 0, '.') == |x.whole|
  {
    FiguresNoPoint(x.whole);
    FindBehind(x.whole, PointText(x.frac), 0);
  }

  lemma {:induction false} Magnitude(w: int, f: int, p: int)
    requires p > 0
    ensures (w * p + f) as real / p as real == w as real + f as real / p as real
  {
    assert (w * p + f) as real == w as real * p as real + f as real;
  }

  lemma {:induction false} ValueOf(raw: Text, negative: bool, w: int, f: int, p: int)
    requires negative <==> raw != [] && (raw[0] == Lead('-') || raw[0] == Lead('−'))
    requires p == Pow10(DigitCount(raw[Find(raw, 0, '.')..])) && Mantissa(raw, 0) == w * p + f
    ensures Value(raw) == if negative then -(w as real + f as real / p as real) else w as real + f as real / p as real
  {
    Magnitude(w, f, p);
  }

  lemma {:induction false} PrintMantissa(x: Printed)
    requires WellFormed(x)
    ensures Mantissa(Print(x), 0) == Mantissa(x.whole + PointText(x.frac), 0)
    ensures DigitCount(Print(x)[Find(Print(x), 0, '.')..]) == |DigitsOf(x.frac)|
  {
    var s, body := SignText(x.sign), x.whole + PointText(x.frac);
    SignSilent(x.sign, body);
    PointFound(x);
    DropTwo(s, x.whole, PointText(x.frac));
    PointDigits(x.frac);
  }

  /** Sign, commas and point of a printed number mean what they always do. */
  lemma {:induction false} ValueReads(x: Printed)
    requires WellFormed(x)
    ensures Value(Print(x)) == Amount(x)
  {
    PrintMantissa(x);
    BodyMantissa(x);
    SignRead(x);
    ValueOf(Print(x), x.sign == Some('-') || x.sign == Some('−'),
            Spelt(DigitsOf(x.whole)), Spelt(DigitsOf(x.frac)), Pow10(|DigitsOf(x.frac)|));
  }

  lemma {:induction false} SignRead(x: Printed)
    requires WellFormed(x)
    ensures var raw := Print(x); (raw != [] && (raw[0] == Lead('-') || raw[0] == Lead('−'))) <==> (x.sign == Some('-') || x.sign == Some('−'))
  {
    if x.sign.None? {
      assert Print(x)[0] == x.whole[0];
    } else {
      assert Print(x)[0] == Lead(x.sign.value);
    }
  }

  lemma {:induction false} PointDigits(frac: Text)
    ensures DigitsOf(PointText(frac)) == DigitsOf(frac) && DigitCount(PointText(frac)) == |DigitsOf(frac)|
  {
    DigitCountIs(PointText(frac));
    if frac != [] {
      assert PointText(frac)[1..] == frac;
    }
  }

  lemma {:induction false} BodyMantissa(x: Printed)
    ensures forall d :: d in DigitsOf(x.whole) ==> IsDigit(d)
    ensures forall d :: d in DigitsOf(x.frac) ==> IsDigit(d)
    ensures Mantissa(x.whole + PointText(x.frac), 0)
         == Spelt(DigitsOf(x.whole)) * Pow10(|DigitsOf(x.frac)|) + Spelt(DigitsOf(x.frac))
  {
    MantissaCat(x.whole, PointText(x.frac), 0);
    MantissaPlaces(x.whole, 0);
    MantissaPlaces(PointText(x.frac), Mantissa(x.whole, 0));
    PointDigits(x.frac);
    DigitsAreDigits(x.frac);
  }

  // ---------- which stretches are numbers ----------

  /** Where the digits and commas from byte `i` on end. */
  function FiguresEnd(t: Text, i: nat): (j: nat)
    requires i <= |t|
    ensures i <= j <= |t| && !FigureAt(t, j) && forall k :: i <= k < j ==> FigureAt(t, k)
    decreases |t| - i
  {
    if FigureAt(t, i) then FiguresEnd(t, i + 1) else i
  }

  predicate PointAt(t: Text, i: nat) { Is(t, i, '.') && DigitAt(t, i + 1) }

  lemma {:induction false} EndBehindPoint(t: Text, i: nat)
    requires i <= |t|
    ensures NumberEnd(t, i, true) == FiguresEnd(t, i)
    decreases |t| - i
  {
    if i < |t| && FigureAt(t, i) {
      EndBehindPoint(t, i + 1);
    }
  }

  lemma {:induction false} EndBeforePoint(t: Text, i: nat)
    requires i <= |t|
    ensures var m := FiguresEnd(t, i);
      NumberEnd(t, i, false) == if PointAt(t, m) then FiguresEnd(t, m + 1) else m
    decreases |t| - i
  {
    if i < |t| && FigureAt(t, i) {
      EndBeforePoint(t, i + 1);
    } else if PointAt(t, i) {
      EndBehindPoint(t, i + 1);
    }
  }

  /** Number `x` stands at bytes `start..end`, and does not go on. */
  ghost predicate StandsAt(t: Text, start: nat, end: nat, x: Printed) {
    && start <= end <= |t| && WellFormed(x) && t[start..end] == Print(x)
    && !FigureAt(t, end) && (x.frac == [] ==> !PointAt(t, end))
  }

  function FiguresOf(t: Text, d: nat, e: nat): Printed
    requires d <= |t| && FiguresEnd(t, d) <= e <= |t|
  {
    var m := FiguresEnd(t, d);
    Printed(None, t[d..m], if m < e then t[m + 1..e] else [])
  }

  lemma {:induction false} SliceFigures(t: Text, a: nat, b: nat)
    requires a < b <= |t| && DigitAt(t, a) && forall k :: a <= k < b ==> FigureAt(t, k)
    ensures Figures(t[a..b])
  {
    forall k | 0 <= k < b - a
      ensures FigureAt(t[a..b], k)
    {
      assert FigureAt(t, a + k);
    }
  }

  lemma {:induction false} UnsignedStands(t: Text, d: nat) returns (x: Printed)
    requires DigitAt(t, d)
    ensures x.sign == None && StandsAt(t, d, NumberEnd(t, d, false), x)
  {
    var m, e := FiguresEnd(t, d), NumberEnd(t, d, false);
    EndBeforePoint(t, d);
    x := FiguresOf(t, d, e);
    SliceFigures(t, d, m);
    if PointAt(t, m) {
      SliceFigures(t, m + 1, e);
      assert t[d..e] == t[d..m] + ([t[m]] + t[m + 1..e]);
    }
    assert Print(x) == x.whole + PointText(x.frac);
  }

  lemma {:induction false} SignSpans(t: Text, i: nat)
    requires Utf8(t) && i < |t| && SignedAt(t, i)
    ensures i + Width(t[i].ch) <= |t| && t[i..i + Width(t[i].ch)] == SignText(Some(t[i].ch))
  {
    assert Whole(t, i);
  }

  /** What the scanner takes for a number is one. */
  lemma {:induction false} TokenStands(t: Text, i: nat) returns (x: Printed)
    requires Utf8(t) && i < |t| && TokenStart(t, i)
    ensures StandsAt(t, i, NumberEnd(t, DigitsStart(t, i), false), x)
    ensures x.sign.Some? ==> SignedAt(t, i)
    ensures t[DigitsStart(t, i)..NumberEnd(t, DigitsStart(t, i), false)] == x.whole + PointText(x.frac)
  {
    var d := DigitsStart(t, i);
    var e := NumberEnd(t, d, false);
    var y := UnsignedStands(t, d);
    assert Print(y) == y.whole + PointText(y.frac);
    x := y;
    if !DigitAt(t, i) {
      x := Printed(Some(t[i].ch), y.whole, y.frac);
      SignSpans(t, i);
      SignInFront(t, i, d, e, y);
    }
  }

  lemma {:induction false} SignInFront(t: Text, i: nat, d: nat, e: nat, y: Printed)
    requires y.sign == None && i < d && StandsAt(t, d, e, y)
    requires t[i].Lead? && IsSign(t[i].ch) && t[i..d] == SignText(Some(t[i].ch))
    ensures StandsAt(t, i, e, Printed(Some(t[i].ch), y.whole, y.frac))
  {
    var x := Printed(Some(t[i].ch), y.whole, y.frac);
    SliceCat(t, i, d, e);
    UnsignedPrint(y);
    assert Print(x) == t[i..d] + t[d..e];
  }

  lemma {:induction false} UnsignedPrint(y: Printed)
    requires y.sign == None
    ensures Print(y) == y.whole + PointText(y.frac)
  {
  }

  lemma {:induction false} SliceCat<T>(t: seq<T>, i: nat, d: nat, e: nat)
    requires i <= d <= e <= |t|
    ensures t[i..e] == t[i..d] + t[d..e]
  {
  }

  lemma {:induction false} DropTwo<T>(s: seq<T>, w: seq<T>, p: seq<T>)
    ensures (s + (w + p))[|s| + |w|..] == p
  {
  }

  lemma {:induction false} PointPlace(t: Text, d: nat, e: nat, x: Printed)
    requires x.sign == None && StandsAt(t, d, e, x)
    ensures FiguresEnd(t, d) == d + |x.whole| && DigitAt(t, d) && d < e
    ensures x.frac != [] ==> PointAt(t, d + |x.whole|) && FiguresEnd(t, d + |x.whole| + 1) == e
    ensures x.frac == [] ==> e == d + |x.whole| && !PointAt(t, e)
  {
    WholePlace(t, d, e, x);
    if x.frac != [] {
      FracPlace(t, d + |x.whole| + 1, e, x);
    }
    EndsAt(t, d, d + |x.whole|);
  }

  lemma {:induction false} WholePlace(t: Text, d: nat, e: nat, x: Printed)
    requires x.sign == None && StandsAt(t, d, e, x)
    ensures d + |x.whole| <= e && DigitAt(t, d) && e == d + |x.whole| + |PointText(x.frac)|
    ensures x.frac != [] ==> t[d + |x.whole|] == Lead('.')
    ensures forall k :: d <= k < d + |x.whole| ==> FigureAt(t, k)
    ensures !FigureAt(t, d + |x.whole|) && (x.frac == [] ==> !PointAt(t, e))
  {
    UnsignedPrint(x);
    PartsAt(t, d, e, x.whole, PointText(x.frac));
    FiguresAt(t, d, x.whole);
  }

  lemma {:induction false} PartsAt<T>(t: seq<T>, d: nat, e: nat, w: seq<T>, p: seq<T>)
    requires d <= e <= |t| && t[d..e] == w + p
    ensures e == d + |w| + |p|
    ensures forall k :: 0 <= k < |w| ==> t[d + k] == w[k]
    ensures forall k :: 0 <= k < |p| ==> t[d + |w| + k] == p[k]
  {
    var s := t[d..e];
    assert forall k :: 0 <= k < |s| ==> s[k] == t[d + k];
  }

  lemma {:induction false} FiguresAt(t: Text, d: nat, w: Text)
    requires d + |w| <= |t| && Figures(w) && forall k :: 0 <= k < |w| ==> t[d + k] == w[k]
    ensures DigitAt(t, d) && forall k :: d <= k < d + |w| ==> FigureAt(t, k)
  {
    forall k | d <= k < d + |w|
      ensures FigureAt(t, k)
    {
      assert t[d + (k - d)] == w[k - d] && FigureAt(w, k - d);
    }
    assert t[d + 0] == w[0];
  }

  lemma {:induction false} FracPlace(t: Text, f: nat, e: nat, x: Printed)
    requires f > |x.whole| && x.sign == None && StandsAt(t, f - 1 - |x.whole|, e, x) && x.frac != []
    ensures f < e && DigitAt(t, f) && FiguresEnd(t, f) == e
  {
    UnsignedPrint(x);
    PartsAt(t, f - 1 - |x.whole|, e, x.whole, PointText(x.frac));
    BehindPoint(t, f, PointText(x.frac), x.frac);
    FiguresAt(t, f, x.frac);
    EndsAt(t, f, e);
  }

  lemma {:induction false} BehindPoint(t: Text, f: nat, p: Text, frac: Text)
    requires 0 < f && p == [Lead('.')] + frac && f - 1 + |p| <= |t| && forall k :: 0 <= k < |p| ==> t[f - 1 + k] == p[k]
    ensures f + |frac| <= |t| && forall k :: 0 <= k < |frac| ==> t[f + k] == frac[k]
  {
    forall k | 0 <= k < |frac|
      ensures t[f + k] == frac[k]
    {
      assert p[k + 1] == frac[k] && t[f - 1 + (k + 1)] == p[k + 1];
    }
  }

  lemma {:induction false} EndsAt(t: Text, i: nat, m: nat)
    requires i <= m <= |t| && !FigureAt(t, m) && forall k :: i <= k < m ==> FigureAt(t, k)
    ensures FiguresEnd(t, i) == m
    decreases m - i
  {
    if i < m {
      EndsAt(t, i + 1, m);
    }
  }

  /** A number that stands unsigned in a text is scanned to its end. */
  lemma {:induction false} UnsignedScanned(t: Text, d: nat, e: nat, x: Printed)
    requires x.sign == None && StandsAt(t, d, e, x)
    ensures d < e && DigitAt(t, d) && NumberEnd(t, d, false) == e
  {
    PointPlace(t, d, e, x);
    EndBeforePoint(t, d);
  }

  lemma {:induction false} SignedParts(t: Text, i: nat, e: nat, x: Printed) returns (d: nat)
    requires Utf8(t) && StandsAt(t, i, e, x) && x.sign.Some?
    ensures i < d <= e && t[i] == Lead(x.sign.value) && d == i + Width(x.sign.value)
    ensures StandsAt(t, d, e, Printed(None, x.whole, x.frac))
  {
    var s := SignText(x.sign);
    d := i + |s|;
    var y := Printed(None, x.whole, x.frac);
    UnsignedPrint(y);
    PartsAt(t, i, e, s, Print(y));
    assert t[i + 0] == s[0];
    SliceOf(t, d, e, Print(y));
  }

  lemma {:induction false} SliceOf<T>(t: seq<T>, d: nat, e: nat, p: seq<T>)
    requires d <= e <= |t| && e == d + |p| && forall k :: 0 <= k < |p| ==> t[d + k] == p[k]
    ensures t[d..e] == p
  {
  }

  lemma {:induction false} SignedScanned(t: Text, i: nat, e: nat, x: Printed)
    requires Utf8(t) && StandsAt(t, i, e, x) && x.sign.Some?
    requires match CharBefore(t, i) { case None => true case Some(p) => !IsAlnum(p) }
    ensures i < |t| && SignedAt(t, i) && !DigitAt(t, i) && NumberEnd(t, DigitsStart(t, i), false) == e
  {
    var d := SignedParts(t, i, e, x);
    UnsignedScanned(t, d, e, Printed(None, x.whole, x.frac));
  }

  /** A number standing in a text is a token of the scanner, if scanning starts there. */
  lemma {:induction false} StandingScanned(t: Text, i: nat, e: nat, x: Printed)
    requires Utf8(t) && StandsAt(t, i, e, x)
    requires x.sign.Some? ==> match CharBefore(t, i) { case None => true case Some(p) => !IsAlnum(p) }
    ensures i < |t| && TokenStart(t, i) && NumberEnd(t, DigitsStart(t, i), false) == e
  {
    if x.sign.Some? {
      SignedScanned(t, i, e, x);
    } else {
      UnsignedScanned(t, i, e, x);
    }
  }

  // ---------- what the characters around a number say ----------

  /** Character `c` ends where byte `i` starts. */
  ghost predicate EndsWith(t: Text, i: nat, c: char) {
    exists q :: 0 <= q < i <= |t| && t[q] == Lead(c) && forall k :: q < k < i ==> t[k].Cont?
  }

  lemma {:induction false} EndsWithIs(t: Text, i: nat, c: char)
    requires Utf8(t) && i <= |t|
    ensures CharBefore(t, i) == Some(c) <==> EndsWith(t, i, c)
  {
    if EndsWith(t, i, c) {
      var q: nat :| q < i && t[q] == Lead(c) && forall k :: q < k < i ==> t[k].Cont?;
      CharBeforeWhole(t, q, i);
    }
    if CharBefore(t, i) == Some(c) {
      var q := BeforeAt(t, i);
    }
  }

  lemma {:induction false} BeforeAt(t: Text, i: nat) returns (q: nat)
    requires i <= |t| && CharBefore(t, i).Some?
    ensures q < i && t[q] == Lead(CharBefore(t, i).value) && forall k :: q < k < i ==> t[k].Cont?
  {
    if t[i - 1].Lead? {
      q := i - 1;
    } else {
      q := BeforeAt(t, i - 1);
    }
  }

  predicate CharIn(t: Text, i: nat, cs: string) { i < |t| && t[i].Lead? && t[i].ch in cs }

  ghost predicate EndsWithin(t: Text, i: nat, cs: string) { exists c :: c in cs && EndsWith(t, i, c) }

  predicate LetterAt(t: Text, i: nat) { i < |t| && t[i].Lead? && IsAsciiLetter(t[i].ch) }

  ghost predicate LetterBefore(t: Text, i: nat) { exists c :: IsAsciiLetter(c) && EndsWith(t, i, c) }

  /** A list marker, or part of a name. */
  ghost predicate Skipped(t: Text, start: nat, end: nat) {
    CharIn(t, end, ".、)）") || LetterAt(t, end) || LetterBefore(t, start)
  }

  /** Four bytes with the point, without sign and commas. */
  predicate FourPlaces(x: Printed) {
    |DigitsOf(x.whole)| + (if x.frac == [] then 0 else 1 + |DigitsOf(x.frac)|) == 4
  }

  /** A date mark beside it, an ordinal, or a year of four places. */
  ghost predicate Dated(t: Text, start: nat, end: nat, x: Printed) {
    || CharIn(t, end, "-:/月日时分")
    || EndsWithin(t, start, "-:/第")
    || (CharIn(t, end, "年") && FourPlaces(x))
  }

  /** The unit stands at byte `u`: right behind the number, or behind one white space. */
  predicate UnitPlace(t: Text, end: nat, u: nat) {
    if end < |t| && t[end].Lead? && IsSpace(t[end].ch) then u == end + Width(t[end].ch) else u == end
  }

  /** Units that count. */
  predicate Counts(t: Text, u: nat, c: char) {
    if Is(t, u, '个') && Is(t, u + 3, '月') then c == '月' else CharIn(t, u, "元块个单家件条次位名行页台份笔户款人天年") && t[u].ch == c
  }

  /** `unit` is the one written at byte `u`. */
  ghost predicate UnitWritten(t: Text, u: nat, unit: Unit) {
    && (unit == Wan <==> CharIn(t, u, "万"))
    && (unit == Yi <==> CharIn(t, u, "亿"))
    && (unit == Percent <==> CharIn(t, u, "%％"))
    && (forall c :: unit == Multiplier(c) <==> c in "倍成" && Is(t, u, c))
    && (forall c :: unit == Count(c) <==> Counts(t, u, c))
    && unit != Date
  }

  ghost predicate UnitStands(t: Text, start: nat, end: nat, x: Printed, unit: Unit) {
    if Dated(t, start, end, x) then unit == Date
    else exists u :: UnitPlace(t, end, u) && UnitWritten(t, u, unit)
  }

  lemma {:induction false} LetterBeforeIs(t: Text, i: nat)
    requires Utf8(t) && i <= |t|
    ensures LetterIs(CharBefore(t, i)) <==> LetterBefore(t, i)
  {
    forall c
      ensures CharBefore(t, i) == Some(c) <==> EndsWith(t, i, c)
    {
      EndsWithIs(t, i, c);
    }
  }

  lemma {:induction false} SkippedIs(t: Text, start: nat, end: nat)
    requires Utf8(t) && start <= end <= |t|
    ensures (ListMark(CharAt(t, end)) || LetterIs(CharAt(t, end)) || LetterIs(CharBefore(t, start))) <==> Skipped(t, start, end)
  {
    LetterBeforeIs(t, start);
  }

  lemma {:induction false} PlainFigures(t: Text)
    requires forall k :: 0 <= k < |t| ==> FigureAt(t, k)
    ensures PlainLength(t) == |DigitsOf(t)|
  {
    if t != [] {
      assert FigureAt(t, 0);
      forall k | 0 <= k < |t[1..]|
        ensures FigureAt(t[1..], k)
      {
        assert FigureAt(t, k + 1);
      }
      PlainFigures(t[1..]);
    }
  }

  lemma {:induction false} PlainCat(a: Text, b: Text)
    ensures PlainLength(a + b) == PlainLength(a) + PlainLength(b)
  {
    if a == [] {
      assert a + b == b;
    } else {
      assert (a + b)[1..] == a[1..] + b;
      PlainCat(a[1..], b);
    }
  }

  lemma {:induction false} FourPlacesIs(x: Printed)
    requires WellFormed(x)
    ensures PlainLength(x.whole + PointText(x.frac)) == 4 <==> FourPlaces(x)
  {
    PlainCat(x.whole, PointText(x.frac));
    PlainFigures(x.whole);
    if x.frac != [] {
      PlainCat([Lead('.')], x.frac);
      PlainFigures(x.frac);
      assert PlainLength([Lead('.')]) == 1;
    }
  }

  lemma {:induction false} DatedIs(t: Text, start: nat, end: nat, number: Text, x: Printed)
    requires Utf8(t) && start <= end <= |t| && WellFormed(x) && number == x.whole + PointText(x.frac)
    ensures (|| DateUnit(CharAt(t, end)) || DateMark(CharBefore(t, start)) || CharBefore(t, start) == Some('第')
             || (CharAt(t, end) == Some('年') && PlainLength(number) == 4)) <==> Dated(t, start, end, x)
  {
    FourPlacesIs(x);
    forall c
      ensures CharBefore(t, start) == Some(c) <==> EndsWith(t, start, c)
    {
      EndsWithIs(t, start, c);
    }
  }

  lemma {:induction false} UnitWrittenIs(t: Text, u: nat, unit: Unit)
    ensures unit == UnitOf(CharAt(t, u), CharAt(t, After(t, u))) <==> UnitWritten(t, u, unit)
  {
    if Is(t, u, '个') {
      assert After(t, u) == u + 3;
    }
  }

  lemma {:induction false} UnitPlaceIs(t: Text, end: nat, u: nat)
    ensures UnitPlace(t, end, u) <==> u == UnitIndex(t, end)
  {
  }

  /** A number token becomes a claim exactly if it is not passed over, and with that unit. */
  lemma {:induction false} ClaimStands(t: Text, start: nat, d: nat, e: nat, x: Printed, unit: Unit)
    requires Utf8(t) && start <= d < e <= |t| && WellFormed(x) && t[d..e] == x.whole + PointText(x.frac)
    ensures ClaimAt(t, start, d, e).Some? <==> !Skipped(t, start, e)
    ensures ClaimAt(t, start, d, e) == Some(Number(unit, t[start..e])) <==>
      !Skipped(t, start, e) && UnitStands(t, start, e, x, unit)
  {
    SkippedIs(t, start, e);
    DatedIs(t, start, e, t[d..e], x);
    var u := UnitIndex(t, e);
    UnitPlaceIs(t, e, u);
    UnitWrittenIs(t, u, unit);
    UnitStandsAt(t, start, e, x, unit, u);
  }

  lemma {:induction false} UnitStandsAt(t: Text, start: nat, end: nat, x: Printed, unit: Unit, u: nat)
    requires u == UnitIndex(t, end)
    ensures UnitStands(t, start, end, x, unit) <==> if Dated(t, start, end, x) then unit == Date else UnitWritten(t, u, unit)
  {
    UnitPlaceIs(t, end, u);
    if !Dated(t, start, end, x) && UnitStands(t, start, end, x, unit) {
      var u' :| UnitPlace(t, end, u') && UnitWritten(t, u', unit);
      UnitPlaceIs(t, end, u');
    }
  }

  // ---------- every claim, and every number ----------

  /** A claim read off its bytes: a number that stands there and is not passed over, worth
      what it is printed as, with the unit written beside it. */
  ghost predicate Reads(t: Text, c: Claim, x: Printed) {
    && StandsAt(t, c.start, c.end, x) && !Skipped(t, c.start, c.end)
    && c.what.Number? && c.what.raw == Print(x) && Value(c.what.raw) == Amount(x)
    && UnitStands(t, c.start, c.end, x, c.what.unit)
    && (x.sign.Some? ==> !AlnumBefore(t, c.start))
  }

  /** A letter or digit ends where byte `i` starts. */
  ghost predicate AlnumBefore(t: Text, i: nat) { exists c :: (IsDigit(c) || IsAsciiLetter(c)) && EndsWith(t, i, c) }

  lemma {:induction false} SignedFree(t: Text, i: nat)
    requires Utf8(t) && i < |t| && SignedAt(t, i)
    ensures !AlnumBefore(t, i)
  {
    if c :| (IsDigit(c) || IsAsciiLetter(c)) && EndsWith(t, i, c) {
      EndsWithIs(t, i, c);
    }
  }

  lemma {:induction false} FirstOrRest(t: Text, i: nat, c: Claim)
    requires i < |t| && TokenStart(t, i) && c in Numbers(t, i)
    ensures var d := DigitsStart(t, i); var e := NumberEnd(t, d, false);
      c in Numbers(t, e) || (c.start == i && c.end == e && ClaimAt(t, i, d, e) == Some(c.what))
  {
    NumbersToken(t, i);
  }

  lemma {:induction false} TokenReads(t: Text, i: nat, c: Claim) returns (x: Printed)
    requires Utf8(t) && i < |t| && TokenStart(t, i)
    requires var d := DigitsStart(t, i); var e := NumberEnd(t, d, false);
      c.start == i && c.end == e && ClaimAt(t, i, d, e) == Some(c.what)
    ensures Reads(t, c, x)
  {
    x := TokenStands(t, i);
    var d := DigitsStart(t, i);
    MeansNumber(t, i, d, c.end);
    ClaimStands(t, i, d, c.end, x, c.what.unit);
    ValueReads(x);
    if x.sign.Some? {
      SignedFree(t, i);
    }
  }

  lemma {:induction false} MeansNumber(t: Text, i: nat, d: nat, e: nat)
    requires i <= d < e <= |t| && ClaimAt(t, i, d, e).Some?
    ensures ClaimAt(t, i, d, e).value.Number? && ClaimAt(t, i, d, e).value.raw == t[i..e]
  {
  }

  lemma {:induction false} ClaimReadsFrom(t: Text, i: nat, c: Claim) returns (x: Printed)
    requires Utf8(t) && i <= |t| && c in Numbers(t, i)
    ensures Reads(t, c, x)
    decreases |t| - i
  {
    if TokenStart(t, i) {
      FirstOrRest(t, i, c);
      var e := NumberEnd(t, DigitsStart(t, i), false);
      if c in Numbers(t, e) {
        x := ClaimReadsFrom(t, e, c);
      } else {
        x := TokenReads(t, i, c);
      }
    } else {
      x := ClaimReadsFrom(t, i + 1, c);
    }
  }

  /** Every claim is a printed number of the text, read with its value and its unit. */
  lemma {:induction false} ClaimReads(t: Text, c: Claim) returns (x: Printed)
    requires Utf8(t) && c in Numbers(t, 0)
    ensures Reads(t, c, x)
  {
    x := ClaimReadsFrom(t, 0, c);
  }

  /** Nothing before byte `s` runs into a number there: no figure, no point, no sign, and no
      letter or digit before a sign of its own. */
  ghost predicate Apart(t: Text, s: nat, x: Printed) {
    && 0 <= s <= |t| && (s > 0 ==> !FigureAt(t, s - 1) && !Is(t, s - 1, '.'))
    && !EndsWithin(t, s, "+-−")
    && (x.sign.Some? ==> forall c :: EndsWith(t, s, c) ==> !IsAlnum(c))
  }

  lemma {:induction false} EndsEarlier(t: Text, i: nat, dot: bool, s: nat)
    requires i < s <= |t| && !FigureAt(t, s - 1) && !Is(t, s - 1, '.')
    ensures NumberEnd(t, i, dot) < s
    decreases s - i
  {
    if i < s - 1 && t[i].Lead? {
      var c := t[i].ch;
      if IsDigit(c) || c == ',' {
        EndsEarlier(t, i + 1, dot, s);
      } else if c == '.' && !dot && DigitAt(t, i + 1) {
        EndsEarlier(t, i + 1, true, s);
      }
    }
  }

  lemma {:induction false} DigitsEarlier(t: Text, i: nat, s: nat)
    requires Utf8(t) && i < s <= |t| && TokenStart(t, i) && !EndsWithin(t, s, "+-−")
    ensures DigitsStart(t, i) < s || !DigitAt(t, s)
    ensures DigitsStart(t, i) <= s || t[s].Cont?
  {
    if !DigitAt(t, i) && t[i].Lead? {
      SignSpans(t, i);
      var w := Width(t[i].ch);
      assert Whole(t, i);
      if i + w == s {
        assert EndsWith(t, s, t[i].ch);
      }
    }
  }

  /** The scan comes to a number that stands apart. */
  lemma {:induction false} ScanReaches(t: Text, i: nat, s: nat, x: Printed, c: Claim)
    requires Utf8(t) && i <= s < |t| && t[s].Lead? && Apart(t, s, x)
    ensures c in Numbers(t, s) ==> c in Numbers(t, i)
    decreases s - i
  {
    if i < s {
      if TokenStart(t, i) {
        var d := DigitsStart(t, i);
        DigitsEarlier(t, i, s);
        if d < s {
          EndsEarlier(t, d, false, s);
          ScanReaches(t, NumberEnd(t, d, false), s, x, c);
          NumbersToken(t, i);
        } else {
          assert false;
        }
      } else {
        ScanReaches(t, i + 1, s, x, c);
      }
    }
  }

  /** Every number of the text that stands apart and is not passed over is a claim. */
  lemma {:induction false} PrintedIsRead(t: Text, s: nat, e: nat, x: Printed) returns (c: Claim)
    requires Utf8(t) && StandsAt(t, s, e, x) && Apart(t, s, x) && !Skipped(t, s, e)
    ensures c in Numbers(t, 0) && c.start == s && c.end == e && c.what.Number? && c.what.raw == Print(x)
    ensures Value(c.what.raw) == Amount(x) && UnitStands(t, s, e, x, c.what.unit)
  {
    BeforeSign(t, s, x);
    StandingScanned(t, s, e, x);
    var d := DigitsStart(t, s);
    NumbersToken(t, s);
    var y := TokenStands(t, s);
    ClaimStands(t, s, d, e, y, Plain);
    c := Claim(ClaimAt(t, s, d, e).value, s, e);
    ScanReaches(t, 0, s, x, c);
    OnePrint(t, s, e, x, y);
    y := TokenReads(t, s, c);
    OnePrint(t, s, e, x, y);
  }

  lemma {:induction false} BeforeSign(t: Text, s: nat, x: Printed)
    requires Utf8(t) && Apart(t, s, x)
    ensures x.sign.Some? ==> match CharBefore(t, s) { case None => true case Some(p) => !IsAlnum(p) }
  {
    if CharBefore(t, s).Some? {
      EndsWithIs(t, s, CharBefore(t, s).value);
    }
  }

  /** One stretch of bytes is printed in one way. */
  lemma {:induction false} OnePrint(t: Text, s: nat, e: nat, x: Printed, y: Printed)
    requires Utf8(t) && StandsAt(t, s, e, x) && StandsAt(t, s, e, y)
    ensures x == y
  {
    SignsAgree(t, s, e, x, y);
    if x.sign.Some? {
      var d := SignedParts(t, s, e, x);
      var d' := SignedParts(t, s, e, y);
      OneUnsigned(t, d, e, Printed(None, x.whole, x.frac), Printed(None, y.whole, y.frac));
    } else {
      OneUnsigned(t, s, e, x, y);
    }
  }

  lemma {:induction false} SignsAgree(t: Text, s: nat, e: nat, x: Printed, y: Printed)
    requires Utf8(t) && StandsAt(t, s, e, x) && StandsAt(t, s, e, y)
    ensures x.sign == y.sign
  {
    FirstByte(t, s, e, x);
    FirstByte(t, s, e, y);
  }

  lemma {:induction false} FirstByte(t: Text, s: nat, e: nat, x: Printed)
    requires Utf8(t) && StandsAt(t, s, e, x)
    ensures s < |t| && if x.sign.Some? then t[s] == Lead(x.sign.value) else DigitAt(t, s)
  {
    if x.sign.Some? {
      var d := SignedParts(t, s, e, x);
    } else {
      UnsignedScanned(t, s, e, x);
    }
  }

  lemma {:induction false} OneUnsigned(t: Text, d: nat, e: nat, x: Printed, y: Printed)
    requires x.sign == None && y.sign == None && StandsAt(t, d, e, x) && StandsAt(t, d, e, y)
    ensures x == y
  {
    PointPlace(t, d, e, x);
    PointPlace(t, d, e, y);
    SameParts(x, y, t[d..e]);
  }

  lemma {:induction false} SameParts(x: Printed, y: Printed, s: Text)
    requires x.sign == None && y.sign == None && Print(x) == s && Print(y) == s && |x.whole| == |y.whole|
    ensures x == y
  {
    UnsignedPrint(x);
    UnsignedPrint(y);
    assert x.whole == s[..|x.whole|] && y.whole == s[..|x.whole|];
    var p, q := PointText(x.frac), PointText(y.frac);
    assert p == s[|x.whole|..] && q == s[|x.whole|..];
    if x.frac != [] {
      assert x.frac == p[1..];
    }
    if y.frac != [] {
      assert y.frac == q[1..];
    }
  }

  // ---------- rewritten numerals ----------

  /** What `w` before the character `c` is checked as: its unit, and how much it is in full. */
  predicate CheckedAs(c: char, w: real, unit: Unit, base: real) {
    && (c == '万' ==> unit == Wan && base == 10000.0 * w)
    && (c == '亿' ==> unit == Yi && base == 100000000.0 * w)
    && (c in "%％" ==> unit == Percent && base == w)
    && (c in "倍成" ==> unit == Multiplier(c) && base == w)
    && (c in "元块单家件条次位名行页台份笔户款人天" ==> unit == Count(c) && base == w)
  }

  /** A Chinese numeral worth `w` with a unit behind is checked as `w` of that unit: so many
      ten-thousands, hundred-millions, per cent, or pieces. */
  lemma {:induction false} NumeralReads(t: Text, keep: Keep, cn: Worth, r: Run, w: nat) returns (c: Claim)
    requires Utf8(t) && r in Runs(t, 0, keep)
    requires r.start < r.stop < |t| && t[r.stop].Lead? && UnitChar(t[r.stop].ch)
    requires cn(Zeros(t[r.start..r.stop])) == Some(w) && |Decimal(w)| < r.stop - r.start
    ensures c in Numbers(Normalized(t, keep, cn), 0) && c.start == r.stop - |Decimal(w)| && c.end == r.stop && c.what.Number?
    ensures CheckedAs(t[r.stop].ch, w as real, c.what.unit, BaseValue(EvidenceOf(c)))
  {
    c := NumeralIsClaim(t, keep, cn, r, w);
    ClaimChecked(Normalized(t, keep, cn), c, t[r.stop].ch, w as real);
  }

  lemma {:induction false} ClaimChecked(n: Text, c: Claim, unit: char, w: real)
    requires Utf8(n) && c in Numbers(n, 0) && c.what.Number? && Value(c.what.raw) == w
    requires 0 < c.start <= c.end < |n| && n[c.start - 1] == SPACE && n[c.end] == Lead(unit) && UnitChar(unit)
    ensures CheckedAs(unit, w, c.what.unit, BaseValue(EvidenceOf(c)))
  {
    UnitBehind(n, c);
    UnitGives(n, c.end, unit, c.what.unit, w);
  }

  lemma {:induction false} UnitBehind(n: Text, c: Claim)
    requires Utf8(n) && c in Numbers(n, 0) && c.what.Number?
    requires 0 < c.start <= c.end < |n| && n[c.start - 1] == SPACE && n[c.end].Lead? && UnitChar(n[c.end].ch)
    ensures n[c.end].ch == '年' || UnitWritten(n, c.end, c.what.unit)
  {
    var x := ClaimReads(n, c);
    NotDated(n, c, x);
    if !Dated(n, c.start, c.end, x) {
      UnitCharPlain(n[c.end].ch);
      UnitStandsAt(n, c.start, c.end, x, c.what.unit, UnitIndex(n, c.end));
    }
  }

  lemma {:induction false} UnitGives(t: Text, u: nat, c: char, unit: Unit, w: real)
    requires Is(t, u, c) && (c == '年' || UnitWritten(t, u, unit))
    ensures CheckedAs(c, w, unit, BaseValue(Evidence(w, unit)))
  {
    if c in "元块单家件条次位名行页台份笔户款人天" {
      assert Counts(t, u, c);
    }
  }

  lemma {:induction false} NotDated(n: Text, c: Claim, x: Printed)
    requires Utf8(n) && 0 < c.start <= c.end < |n| && n[c.start - 1] == SPACE && n[c.end].Lead? && UnitChar(n[c.end].ch)
    ensures Dated(n, c.start, c.end, x) ==> n[c.end].ch == '年'
  {
    UnitCharPlain(n[c.end].ch);
    forall d | EndsWith(n, c.start, d)
      ensures d == ' '
    {
      EndsWithIs(n, c.start, d);
    }
  }

  /** Byte `i` is part of a number that is a list marker or part of a name. */
  ghost predicate InSkipped(t: Text, i: nat) {
    exists start: nat, end: nat, x :: StandsAt(t, start, end, x) && Skipped(t, start, end) && start <= i < end
  }

  /** Every digit of a text is read, with a value and a unit, or stands in a number passed
      over. */
  lemma {:induction false} EveryDigitRead(t: Text, i: nat)
    requires Utf8(t) && i < |t| && DigitAt(t, i)
    ensures InSkipped(t, i) || exists c :: c in Numbers(t, 0) && c.start <= i < c.end && ReadSomehow(t, c)
  {
    DigitsCovered(t, 0, i);
    if Covers(Numbers(t, 0), i) {
      var k :| 0 <= k < |Numbers(t, 0)| && Numbers(t, 0)[k].start <= i < Numbers(t, 0)[k].end;
      var x := ClaimReads(t, Numbers(t, 0)[k]);
      assert Numbers(t, 0)[k] in Numbers(t, 0) && ReadSomehow(t, Numbers(t, 0)[k]);
    } else {
      var s: nat, e: nat :| PassedOver(t, s, e) && s <= i < e;
      PassedIsSkipped(t, s, e, i);
    }
  }

  ghost predicate ReadSomehow(t: Text, c: Claim) { exists x :: Reads(t, c, x) }

  lemma {:induction false} PassedIsSkipped(t: Text, s: nat, e: nat, i: nat)
    requires Utf8(t) && PassedOver(t, s, e) && s <= i < e
    ensures InSkipped(t, i)
  {
    var x := TokenStands(t, s);
    SkippedIs(t, s, e);
    assert StandsAt(t, s, e, x) && Skipped(t, s, e);
  }
}
