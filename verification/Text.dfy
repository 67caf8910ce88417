/** Rust `str` values as the contract code sees them: every offset is a byte offset.

    A text is a sequence of bytes. A byte either starts a character (and then we
    record which one) or continues the character before it. Indexing, slicing and
    concatenation of `Text` are therefore byte operations, exactly as in Rust,
    and no UTF-8 bit arithmetic is needed. */
module Text {

  datatype Option<+T> = None | Some(value: T)

  datatype Byte = Lead(ch: char) | Cont

  type Text = seq<Byte>

  const SPACE: Byte := Lead(' ')

  /** `char::len_utf8`. */
  function Width(c: char): (w: nat)
    ensures 1 <= w <= 4
  {
    if c as int < 0x80 then 1
    else if c as int < 0x800 then 2
    else if c as int < 0x1_0000 then 3
    else 4
  }

  predicate IsLead(t: Text, i: nat) {
    i < |t| && t[i].Lead?
  }

  /** The character that starts at byte `i` is completely inside `t` and the next
      byte, if there is one, starts another character. */
  predicate Whole(t: Text, i: nat)
    requires IsLead(t, i)
  {
    var j := i + Width(t[i].ch);
    && j <= |t|
    && (forall k :: i < k < j ==> t[k].Cont?)
    && (j < |t| ==> t[j].Lead?)
  }

  /** Well-formed UTF-8: what the type `str` guarantees. */
  predicate Utf8(t: Text) {
    && (|t| > 0 ==> t[0].Lead?)
    && forall i: nat {:trigger Whole(t, i)} :: i < |t| && t[i].Lead? ==> Whole(t, i)
  }

  /** `str::is_char_boundary`. */
  predicate Boundary(t: Text, i: nat) {
    i == |t| || IsLead(t, i)
  }

  predicate Is(t: Text, i: nat, c: char) {
    i < |t| && t[i] == Lead(c)
  }

  /** The character starting at byte `i`; `None` past the end. */
  function CharAt(t: Text, i: nat): Option<char> {
    if i < |t| && t[i].Lead? then Some(t[i].ch) else None
  }

  /** The last character that starts before byte `i`. */
  function CharBefore(t: Text, i: nat): Option<char>
    requires i <= |t|
  {
    if i == 0 then None
    else if t[i - 1].Lead? then Some(t[i - 1].ch)
    else CharBefore(t, i - 1)
  }

  /** `char::is_whitespace`: the Unicode White_Space property. */
  predicate IsSpace(c: char) {
    var u := c as int;
    || 9 <= u <= 13 || u == 0x20 || u == 0x85 || u == 0xA0 || u == 0x1680
    || 0x2000 <= u <= 0x200A || u == 0x2028 || u == 0x2029 || u == 0x202F
    || u == 0x205F || u == 0x3000
  }

  predicate IsDigit(c: char) { '0' <= c <= '9' }

  predicate IsAsciiLetter(c: char) { 'a' <= c <= 'z' || 'A' <= c <= 'Z' }

  predicate IsAlnum(c: char) { IsDigit(c) || IsAsciiLetter(c) }

  /** The sentence stops that delimit a clause. */
  predicate IsStop(c: char) {
    c == '。' || c == '！' || c == '？' || c == '!' || c == '?' || c == '；' || c == ';' || c == '\n'
  }

  /** `s.trim().is_empty()`. */
  predicate Blank(t: Text) {
    forall i :: 0 <= i < |t| && t[i].Lead? ==> IsSpace(t[i].ch)
  }

  /** `s.contains(needle)`. */
  predicate Contains(t: Text, needle: Text) {
    exists i :: 0 <= i <= |t| && OccursAt(t, i, needle)
  }

  predicate OccursAt(t: Text, i: nat, needle: Text) {
    i + |needle| <= |t| && t[i..i + |needle|] == needle
  }

  /** `s.chars().count()`. */
  function CharCount(t: Text): nat {
    if t == [] then 0 else (if t[0].Lead? then 1 else 0) + CharCount(t[1..])
  }

  /** Offset of the first `c` at or after `i`, or `|t|`. */
  function Find(t: Text, i: nat, c: char): (j: nat)
    requires i <= |t|
    ensures i <= j <= |t|
    ensures j < |t| ==> t[j] == Lead(c)
    decreases |t| - i
  {
    if i == |t| || t[i] == Lead(c) then i else Find(t, i + 1, c)
  }

  ghost predicate Without(t: Text, b: Byte) {
    forall k :: 0 <= k < |t| ==> t[k] != b
  }

  /** A slice between character boundaries is well formed. */
  lemma {:induction false} SliceUtf8(t: Text, a: nat, b: nat)
    requires Utf8(t) && a <= b <= |t| && Boundary(t, a) && Boundary(t, b)
    ensures Utf8(t[a..b])
  {
    var s := t[a..b];
    forall i: nat | i < |s| && s[i].Lead?
      ensures Whole(s, i)
    {
      assert t[a + i] == s[i];
      assert Whole(t, a + i);
      if b < |t| && a + i + Width(s[i].ch) > b {
        assert false;
      }
    }
  }

  lemma {:induction false} ConcatUtf8(s: Text, t: Text)
    requires Utf8(s) && Utf8(t)
    ensures Utf8(s + t)
  {
    var u := s + t;
    forall i: nat | i < |u| && u[i].Lead?
      ensures Whole(u, i)
    {
      if i < |s| {
        assert Whole(s, i);
      } else {
        assert u[i] == t[i - |s|];
        assert Whole(t, i - |s|);
      }
    }
  }

  /** Stepping over a whole character from a boundary reaches a boundary. */
  lemma {:induction false} NextBoundary(t: Text, i: nat)
    requires Utf8(t) && IsLead(t, i)
    ensures Boundary(t, i + Width(t[i].ch))
  {
    assert Whole(t, i);
  }
}
