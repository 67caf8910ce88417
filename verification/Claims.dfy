/** The tokenizer for numeric claims and the scan for qualitative cue words
    (crates/agent/src/answer_contract.rs:689-724 and 1105-1188). */
module Claims {
  import opened Text

  datatype Unit = Plain | Wan | Yi | Percent | Count(c: char) | Multiplier(c: char) | Date

  datatype Kind =
    | Highest | Lowest | Growth | Decline | Lead' | Lag
    | Support | Forbid | Require | Permit | Disallow

  datatype What = Number(unit: Unit, raw: Text) | Cue(kind: Kind)

  /** A claim and the bytes it occupies. */
  datatype Claim = Claim(what: What, start: nat, end: nat)

  // ---------- numbers ----------

  predicate DigitAt(t: Text, i: nat) {
    i < |t| && t[i].Lead? && IsDigit(t[i].ch)
  }

  predicate IsSign(c: char) { c == '+' || c == '-' || c == '−' }

  /** A sign that belongs to the number after it. */
  predicate SignedAt(t: Text, i: nat)
    requires i < |t|
  {
    && t[i].Lead? && IsSign(t[i].ch)
    && DigitAt(t, i + Width(t[i].ch))
    && match CharBefore(t, i) { case None => true case Some(p) => !IsAlnum(p) }
  }

  /** The characters of a number after its sign: digits, commas, one inner dot. */
  function NumberEnd(t: Text, i: nat, seenDot: bool): (j: nat)
    requires i <= |t|
    ensures i <= j <= |t|
    ensures DigitAt(t, i) ==> i < j
    decreases |t| - i
  {
    if i < |t| && t[i].Lead? then
      var c := t[i].ch;
      if IsDigit(c) || c == ',' then NumberEnd(t, i + 1, seenDot)
      else if c == '.' && !seenDot && DigitAt(t, i + 1) then NumberEnd(t, i + 1, true)
      else i
    else i
  }

  function Mantissa(t: Text, acc: nat): nat {
    if t == [] then acc
    else if t[0].Lead? && IsDigit(t[0].ch) then Mantissa(t[1..], 10 * acc + (t[0].ch as int - '0' as int))
    else Mantissa(t[1..], acc)
  }

  function DigitCount(t: Text): nat {
    if t == [] then 0 else (if t[0].Lead? && IsDigit(t[0].ch) then 1 else 0) + DigitCount(t[1..])
  }

  function Pow10(k: nat): (p: nat)
    ensures p > 0
  {
    if k == 0 then 1 else 10 * Pow10(k - 1)
  }

  /** The value written by `raw`, sign and commas included; exact where the source
      rounds. The tokenizer admits digits, commas and one inner dot after the sign, so
      the source's parse cannot fail. */
  function Value(raw: Text): real {
    var dot := Find(raw, 0, '.');
    var magnitude := Mantissa(raw, 0) as real / Pow10(DigitCount(raw[dot..])) as real;
    if raw != [] && (raw[0] == Lead('-') || raw[0] == Lead('−')) then -magnitude else magnitude
  }

  /** Bytes of `number` other than commas. */
  function PlainLength(number: Text): nat {
    if number == [] then 0 else (if number[0] == Lead(',') then 0 else 1) + PlainLength(number[1..])
  }

  predicate DateMark(c: Option<char>) {
    c == Some('-') || c == Some(':') || c == Some('/')
  }

  predicate DateUnit(c: Option<char>) {
    DateMark(c) || c == Some('月') || c == Some('日') || c == Some('时') || c == Some('分')
  }

  predicate ListMark(c: Option<char>) {
    c == Some('.') || c == Some('、') || c == Some(')') || c == Some('）')
  }

  predicate LetterIs(c: Option<char>) {
    c.Some? && IsAsciiLetter(c.value)
  }

  predicate CountUnit(c: char) {
    c in "元块个单家件条次位名行页台份笔户款人天年"
  }

  /** The unit named by the character after the number (and the one after that). */
  function UnitOf(unit: Option<char>, after: Option<char>): Unit {
    match unit
    case None => Plain
    case Some(c) =>
      if c == '万' then Wan
      else if c == '亿' then Yi
      else if c == '%' || c == '％' then Percent
      else if c == '倍' || c == '成' then Multiplier(c)
      else if c == '个' && after == Some('月') then Count('月')
      else if CountUnit(c) then Count(c)
      else Plain
  }

  /** What a number token means, from its text and its neighbours; `None` for list
      markers and model suffixes. */
  function Meaning(raw: Text, number: Text, prev: Option<char>, next: Option<char>,
                   unit: Option<char>, after: Option<char>): Option<What>
  {
    var date := DateUnit(next) || DateMark(prev) || (next == Some('年') && PlainLength(number) == 4);
    if ListMark(next) || LetterIs(next) || LetterIs(prev) then None
    else
      Some(Number(if date || prev == Some('第') then Date else UnitOf(unit, after), raw))
  }

  function After(t: Text, i: nat): nat {
    match CharAt(t, i) case None => i case Some(c) => i + Width(c)
  }

  /** The character after the number, skipping one whitespace character. */
  function UnitIndex(t: Text, end: nat): nat {
    match CharAt(t, end)
    case None => end
    case Some(c) => if IsSpace(c) then end + Width(c) else end
  }

  /** What the number token at bytes `start..end` claims, its digits starting at byte
      `digits`. */
  function ClaimAt(t: Text, start: nat, digits: nat, end: nat): Option<What>
    requires start <= digits < end <= |t|
  {
    var u := UnitIndex(t, end);
    Meaning(t[start..end], t[digits..end], CharBefore(t, start), CharAt(t, end),
            CharAt(t, u), CharAt(t, After(t, u)))
  }

  /** None or one claim in front of `rest`. */
  function Prepend(what: Option<What>, start: nat, end: nat, rest: seq<Claim>): seq<Claim> {
    match what
    case None => rest
    case Some(x) => [Claim(x, start, end)] + rest
  }

  /** `out.push` of none or one claim. */
  function Append(out: seq<Claim>, what: Option<What>, start: nat, end: nat): seq<Claim> {
    match what
    case None => out
    case Some(x) => out + [Claim(x, start, end)]
  }

  lemma {:induction false} AppendPrepend(out: seq<Claim>, what: Option<What>, start: nat, end: nat, rest: seq<Claim>)
    ensures out + Prepend(what, start, end, rest) == Append(out, what, start, end) + rest
  {
  }

  predicate TokenStart(t: Text, i: nat)
    requires i < |t|
  {
    DigitAt(t, i) || SignedAt(t, i)
  }

  function DigitsStart(t: Text, i: nat): (j: nat)
    requires i < |t| && TokenStart(t, i)
    ensures i <= j < |t| && DigitAt(t, j)
  {
    if DigitAt(t, i) then i else i + Width(t[i].ch)
  }

  /** `extract_numeric_claims` from byte `i` on. */
  function Numbers(t: Text, i: nat): seq<Claim>
    requires i <= |t|
    decreases |t| - i
  {
    if i == |t| then []
    else if !TokenStart(t, i) then Numbers(t, i + 1)
    else
      var d := DigitsStart(t, i);
      var e := NumberEnd(t, d, false);
      Prepend(ClaimAt(t, i, d, e), i, e, Numbers(t, e))
  }

  method ExtractNumericClaims(text: Text) returns (out: seq<Claim>)
    ensures out == Numbers(text, 0)
  {
    out := [];
    var i := 0;
    while i < |text|
      invariant i <= |text|
      invariant out + Numbers(text, i) == Numbers(text, 0)
    {
      if !TokenStart(text, i) {
        i := i + 1;
        continue;
      }
      var start := i;
      var digits := DigitsStart(text, i);
      i := digits;
      var seenDot := false;
      while i < |text|
        invariant digits <= i <= |text|
        invariant NumberEnd(text, i, seenDot) == NumberEnd(text, digits, false)
      {
        if text[i].Cont? { break; }
        var current := text[i].ch;
        if IsDigit(current) || current == ',' {
          i := i + 1;
        } else if current == '.' && !seenDot && DigitAt(text, i + 1) {
          seenDot := true;
          i := i + 1;
        } else {
          break;
        }
      }
      var found := ClaimAt(text, start, digits, i);
      AppendPrepend(out, found, start, i, Numbers(text, i));
      out := Append(out, found, start, i);
    }
    assert out + [] == out;
  }

  // ---------- cue words ----------

  /** The cue words; all are two three-byte characters. */
  function KindOf(a: char, b: char): Option<Kind> {
    if a == '最' && b == '高' then Some(Highest)
    else if a == '最' && b == '低' then Some(Lowest)
    else if a == '增' && b == '长' then Some(Growth)
    else if a == '下' && b == '降' then Some(Decline)
    else if a == '领' && b == '先' then Some(Lead')
    else if a == '落' && b == '后' then Some(Lag)
    else if a == '支' && b == '持' then Some(Support)
    else if a == '禁' && b == '止' then Some(Forbid)
    else if a == '必' && b == '须' then Some(Require)
    else if a == '可' && b == '以' then Some(Permit)
    else if a == '不' && b == '可' then Some(Disallow)
    else None
  }

  function CueAt(t: Text, i: nat): Option<What>
    requires i < |t|
  {
    if t[i].Lead? && IsLead(t, i + 3) then
      match KindOf(t[i].ch, t[i + 3].ch)
      case None => None
      case Some(kind) => Some(Cue(kind))
    else None
  }

  /** `extract_qualitative_claims` from byte `i` on: all occurrences of all cue words,
      by position. No two cue words start at the same byte. */
  function Cues(t: Text, i: nat): seq<Claim>
    requires i <= |t|
    decreases |t| - i
  {
    if i == |t| then [] else Prepend(CueAt(t, i), i, i + 6, Cues(t, i + 1))
  }

  // ---------- no digit escapes ----------

  /** Bytes `start..end` are a number token the tokenizer passes over on purpose. */
  ghost predicate PassedOver(t: Text, start: nat, end: nat) {
    && start < end <= |t| && TokenStart(t, start) && end == NumberEnd(t, DigitsStart(t, start), false)
    && (ListMark(CharAt(t, end)) || LetterIs(CharAt(t, end)) || LetterIs(CharBefore(t, start)))
  }

  ghost predicate Covers(cs: seq<Claim>, k: nat) {
    exists i :: 0 <= i < |cs| && cs[i].start <= k < cs[i].end
  }

  /** Every ASCII digit is inside a claim, or inside a token passed over because it is a
      list marker or touches an ASCII letter. */
  lemma {:induction false} DigitsCovered(t: Text, i: nat, k: nat)
    requires i <= k < |t| && DigitAt(t, k)
    ensures Covers(Numbers(t, i), k) || exists s: nat, e: nat :: PassedOver(t, s, e) && s <= k < e
    decreases |t| - i
  {
    if !TokenStart(t, i) {
      DigitsCovered(t, i + 1, k);
    } else {
      var d := DigitsStart(t, i);
      var e := NumberEnd(t, d, false);
      var what, rest := ClaimAt(t, i, d, e), Numbers(t, e);
      if k < e {
        if what.None? {
          assert PassedOver(t, i, e);
        } else {
          assert Numbers(t, i)[0] == Claim(what.value, i, e);
        }
      } else {
        DigitsCovered(t, e, k);
        if Covers(rest, k) && what.Some? {
          var j :| 0 <= j < |rest| && rest[j].start <= k < rest[j].end;
          assert Numbers(t, i)[j + 1] == rest[j];
        }
      }
    }
  }
}
