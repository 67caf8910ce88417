/** The clauses of a text: what stands between sentence stops
    (crates/agent/src/answer_contract.rs:632-667). */
module Clauses {
  import opened Text

  /** The last sentence stop before byte `end`. */
  function LastStop(t: Text, end: nat): (r: Option<nat>)
    requires end <= |t|
    ensures r.Some? ==> r.value < end && t[r.value].Lead? && IsStop(t[r.value].ch)
  {
    if end == 0 then None
    else if t[end - 1].Lead? && IsStop(t[end - 1].ch) then Some(end - 1)
    else LastStop(t, end - 1)
  }

  /** `clause_start`: just after that stop. */
  function ClauseStart(t: Text, end: nat): nat
    requires end <= |t|
  {
    match LastStop(t, end)
    case None => 0
    case Some(p) => p + Width(t[p].ch)
  }

  /** A stop, or a comma. */
  predicate IsPause(c: char) { IsStop(c) || c == '，' || c == ',' }

  /** Just after the first pause before byte `end`, looking back, or `start`. */
  function PauseBefore(t: Text, end: nat, start: nat): nat
    requires end <= |t|
  {
    if end == 0 then start
    else if t[end - 1].Lead? && IsPause(t[end - 1].ch) then end - 1 + Width(t[end - 1].ch)
    else PauseBefore(t, end - 1, start)
  }

  /** Just after the first pause from byte `i` on, or `end`. */
  function PauseAfter(t: Text, i: nat, end: nat): nat
    requires i <= |t|
    decreases |t| - i
  {
    if i == |t| then end
    else if t[i].Lead? && IsPause(t[i].ch) then i + Width(t[i].ch)
    else PauseAfter(t, i + 1, end)
  }

  /** Just after the first stop from byte `i` on: the end of `local_clause`. */
  function ClauseEnd(t: Text, i: nat): nat
    requires i <= |t|
    decreases |t| - i
  {
    if i == |t| then i
    else if t[i].Lead? && IsStop(t[i].ch) then i + Width(t[i].ch)
    else ClauseEnd(t, i + 1)
  }

  function Between(t: Text, a: nat, b: nat): Text {
    if a <= b <= |t| then t[a..b] else []
  }

  datatype Clause = Clause(start: nat, end: nat)

  function OfText(t: Text, c: Clause): Text { Between(t, c.start, c.end) }

  /** None or one clause. */
  function Kept(t: Text, start: nat, end: nat): Option<Clause> {
    if start < end && !Blank(Between(t, start, end)) then Some(Clause(start, end)) else None
  }

  function Then(c: Option<Clause>, rest: seq<Clause>): seq<Clause> {
    match c
    case None => rest
    case Some(x) => [x] + rest
  }

  function Added(out: seq<Clause>, c: Option<Clause>): seq<Clause> {
    match c
    case None => out
    case Some(x) => out + [x]
  }

  lemma {:induction false} AddedThen(out: seq<Clause>, c: Option<Clause>, rest: seq<Clause>)
    ensures out + Then(c, rest) == Added(out, c) + rest
  {
  }

  /** `local_clauses` with the current clause starting at `start` and bytes before `i` read. */
  function ClausesFrom(t: Text, start: nat, i: nat): seq<Clause>
    requires i <= |t|
    decreases |t| - i
  {
    if i == |t| then Then(Kept(t, start, |t|), [])
    else if t[i].Lead? && IsStop(t[i].ch) then
      Then(Kept(t, start, i + Width(t[i].ch)), ClausesFrom(t, i + Width(t[i].ch), i + 1))
    else ClausesFrom(t, start, i + 1)
  }

  method LocalClauses(t: Text) returns (clauses: seq<Clause>)
    ensures clauses == ClausesFrom(t, 0, 0)
  {
    clauses := [];
    var start: nat := 0;
    for i := 0 to |t|
      invariant clauses + ClausesFrom(t, start, i) == ClausesFrom(t, 0, 0)
    {
      if t[i].Lead? && IsStop(t[i].ch) {
        var end := i + Width(t[i].ch);
        AddedThen(clauses, Kept(t, start, end), ClausesFrom(t, end, i + 1));
        if start < end && !Blank(Between(t, start, end)) {
          clauses := clauses + [Clause(start, end)];
        }
        start := end;
      }
    }
    AddedThen(clauses, Kept(t, start, |t|), []);
    if start < |t| && !Blank(Between(t, start, |t|)) {
      clauses := clauses + [Clause(start, |t|)];
    }
    assert clauses + [] == clauses;
  }

  /** Clauses lie in bytes `lo..|t|`, one after the other, between characters. */
  ghost predicate Ordered(t: Text, clauses: seq<Clause>, lo: nat)
    decreases |clauses|
  {
    clauses == []
    || (lo <= clauses[0].start < clauses[0].end <= |t| && Boundary(t, clauses[0].start) && Boundary(t, clauses[0].end)
        && !Blank(OfText(t, clauses[0])) && Ordered(t, clauses[1..], clauses[0].end))
  }

  lemma {:induction false} OrderedWeaken(t: Text, clauses: seq<Clause>, lo: nat, hi: nat)
    requires Ordered(t, clauses, hi) && lo <= hi
    ensures Ordered(t, clauses, lo)
  {
  }

  lemma {:induction false} ClausesOrdered(t: Text, start: nat, i: nat)
    requires Utf8(t) && i <= |t| && start <= |t| && Boundary(t, start)
    requires forall k :: i <= k < start ==> t[k].Cont?
    ensures Ordered(t, ClausesFrom(t, start, i), start)
    decreases |t| - i
  {
    if i < |t| {
      if t[i].Lead? && IsStop(t[i].ch) {
        var end := i + Width(t[i].ch);
        NextBoundary(t, i);
        assert Whole(t, i);
        ClausesOrdered(t, end, i + 1);
        var rest := ClausesFrom(t, end, i + 1);
        if Kept(t, start, end).Some? {
          assert ([Clause(start, end)] + rest)[1..] == rest;
        } else {
          OrderedWeaken(t, rest, start, end);
        }
      } else {
        ClausesOrdered(t, start, i + 1);
      }
    }
  }

  /** A clause ends at its only stop, or has none. */
  predicate OneStop(t: Text, c: Clause) {
    c.end <= |t|
    && forall i :: c.start <= i < c.end && t[i].Lead? && IsStop(t[i].ch) ==> i + Width(t[i].ch) == c.end
  }

  lemma {:induction false} ClausesHaveOneStop(t: Text, start: nat, i: nat)
    requires Utf8(t) && i <= |t| && start <= |t|
    requires forall k :: i <= k < start ==> t[k].Cont?
    requires forall k :: start <= k < i ==> !(t[k].Lead? && IsStop(t[k].ch))
    ensures forall c :: c in ClausesFrom(t, start, i) ==> OneStop(t, c)
    decreases |t| - i
  {
    if i < |t| {
      if t[i].Lead? && IsStop(t[i].ch) {
        assert Whole(t, i);
        ClausesHaveOneStop(t, i + Width(t[i].ch), i + 1);
      } else {
        ClausesHaveOneStop(t, start, i + 1);
      }
    }
  }

  lemma {:induction false} KeptWith(t: Text, start: nat, end: nat, j: nat)
    requires start <= j < end <= |t| && t[j].Lead? && !IsSpace(t[j].ch)
    ensures Kept(t, start, end) == Some(Clause(start, end))
  {
    assert Between(t, start, end)[j - start] == t[j];
  }

  /** Every character that is no white space lies in a clause. */
  lemma {:induction false} ClausesCover(t: Text, start: nat, i: nat, j: nat) returns (k: nat)
    requires Utf8(t) && i <= |t| && start <= j < |t| && t[j].Lead? && !IsSpace(t[j].ch)
    ensures k < |ClausesFrom(t, start, i)|
    ensures ClausesFrom(t, start, i)[k].start <= j < ClausesFrom(t, start, i)[k].end
    decreases |t| - i
  {
    if i == |t| {
      KeptWith(t, start, |t|, j);
      k := 0;
    } else if t[i].Lead? && IsStop(t[i].ch) {
      var end := i + Width(t[i].ch);
      assert Whole(t, i);
      if j < end {
        KeptWith(t, start, end, j);
        k := 0;
      } else {
        var m := ClausesCover(t, end, i + 1, j);
        k := if Kept(t, start, end).Some? then m + 1 else m;
      }
    } else {
      k := ClausesCover(t, start, i + 1, j);
    }
  }

  /** The clauses of a text: in order and apart, each with at most the stop it ends with, and
      together holding every character that is no white space. */
  lemma {:induction false} ClausesExact(t: Text)
    requires Utf8(t)
    ensures Ordered(t, ClausesFrom(t, 0, 0), 0)
    ensures forall c :: c in ClausesFrom(t, 0, 0) ==> OneStop(t, c)
    ensures forall j :: 0 <= j < |t| && t[j].Lead? && !IsSpace(t[j].ch) ==> InSome(ClausesFrom(t, 0, 0), j)
  {
    ClausesOrdered(t, 0, 0);
    ClausesHaveOneStop(t, 0, 0);
    forall j | 0 <= j < |t| && t[j].Lead? && !IsSpace(t[j].ch)
      ensures InSome(ClausesFrom(t, 0, 0), j)
    {
      var k := ClausesCover(t, 0, 0, j);
      assert ClausesFrom(t, 0, 0)[k].start <= j < ClausesFrom(t, 0, 0)[k].end;
    }
  }

  predicate InSome(clauses: seq<Clause>, j: int) {
    exists k :: 0 <= k < |clauses| && clauses[k].start <= j < clauses[k].end
  }
}
