/** Exactly when a guard nobody new calls makes no more runs than there are waiting keys
    (web/src/ask-transport.ts:29-43). */
module ExpiryKeys {
  import opened ExpiryGuard

  /** Callers with key `a` wait for two different runs. */
  ghost predicate Twice(s: State, a: Key) {
    exists i, j ::
      && 0 <= i < |s.calls| && s.calls[i].on.Waiting? && s.calls[i].key == a
      && 0 <= j < |s.calls| && s.calls[j].on.Waiting? && s.calls[j].key == a
      && s.calls[i].on.run != s.calls[j].on.run
  }

  /** No key waits for two runs, but the only one, or the one handled last of two. */
  ghost predicate Unrepeated(s: State) {
    forall a :: Twice(s, a) ==> |WaitingKeys(s)| <= (if s.handled == Some(a) then 2 else 1)
  }

  /** Whatever turns come, with no new arrivals: no more further runs than waiting keys. */
  ghost predicate OnePerKey(s: State) {
    forall turns :: Quiet(s, turns) ==> |AfterTurns(s, turns).runs| <= |s.runs| + |WaitingKeys(s)|
  }

  // ---------- what each key pays ----------

  ghost function PairsWith(s: State, k: Key): set<(nat, Key)> {
    set p | p in Pairs(s) && p.1 == k
  }

  /** The runs from the `i`-th on for key `k`. */
  function RunsFrom(runs: seq<Run>, k: Key, i: nat): nat
    requires i <= |runs|
    decreases |runs| - i
  {
    if i == |runs| then 0 else (if runs[i].key == k then 1 else 0) + RunsFrom(runs, k, i + 1)
  }

  /** The same runs, by key, and maybe more. */
  ghost predicate SameKeys(a: seq<Run>, b: seq<Run>) {
    |a| <= |b| && forall i :: 0 <= i < |a| ==> b[i].key == a[i].key
  }

  lemma {:induction false} RunsSplit(a: seq<Run>, b: seq<Run>, k: Key, i: nat)
    requires SameKeys(a, b) && i <= |a|
    ensures RunsFrom(b, k, i) == RunsFrom(a, k, i) + RunsFrom(b, k, |a|)
    decreases |a| - i
  {
    if i < |a| {
      RunsSplit(a, b, k, i + 1);
    }
  }

  lemma {:induction false} PairKeys(s: State, p: (nat, Key))
    ensures p in Pairs(s) ==> p.1 in WaitingKeys(s)
  {
  }

  lemma {:induction false} KeyHasPair(s: State, k: Key) returns (i: nat)
    requires k in WaitingKeys(s)
    ensures i < |s.calls| && s.calls[i].on.Waiting? && s.calls[i].key == k && (s.calls[i].on.run, k) in Pairs(s)
  {
    i :| i < |s.calls| && s.calls[i].on.Waiting? && s.calls[i].key == k;
  }

  /** What one turn does to the pairs and runs of a key. */
  ghost predicate Pays(s: State, e: State, k: Key) {
    RunsFrom(e.runs, k, 0) + |PairsWith(e, k)| <= RunsFrom(s.runs, k, 0) + |PairsWith(s, k)|
  }

  /** New runs are for keys that waited. */
  ghost predicate FromWaiting(s: State, e: State) {
    && SameKeys(s.runs, e.runs) && WaitingKeys(e) <= WaitingKeys(s)
    && forall i :: |s.runs| <= i < |e.runs| ==> e.runs[i].key in WaitingKeys(s)
  }

  lemma {:induction false} EndPays(s: State, t: nat, ok: bool, k: Key)
    requires Enabled(s, Ends(t, ok))
    ensures Pays(s, After(s, Ends(t, ok)), k) && FromWaiting(s, After(s, Ends(t, ok)))
  {
    var e := After(s, Ends(t, ok));
    assert Pairs(e) == Pairs(s);
    RunsSplit(s.runs, e.runs, k, 0);
  }

  /** Settling run `t`: the pairs left with key `k` come from pairs with key `k`, and if a
      run for `k` was started, from pairs with another run. */
  lemma {:induction false} PairsLeft(s: State, t: nat, order: seq<nat>, k: Key)
    requires Sound(s) && Rested(s) && SettlesAndWakes(s, t, order)
    ensures var e := Woke(s, t, order);
      && |PairsWith(e, k)| <= |PairsWith(s, k)|
      && (|e.runs| > |s.runs| && e.handled == Some(k) && (t, k) in Pairs(s) ==> |PairsWith(e, k)| < |PairsWith(s, k)|)
  {
    var e := Woke(s, t, order);
    var r := if e.inFlight.Some? then e.inFlight.value else 0;
    var used: set<(nat, Key)> := if e.handled == Some(k) && (t, k) in Pairs(s) then {(t, k)} else {};
    forall p | p in PairsWith(e, k)
      ensures exists q :: q in PairsWith(s, k) - used && Moved(t, r, q) == p
    {
      var q := PairFrom(s, t, order, p);
      assert q in PairsWith(s, k) - used;
    }
    ImageSmall(t, r, PairsWith(s, k) - used, PairsWith(e, k));
    assert |PairsWith(s, k) - used| == |PairsWith(s, k)| - |used|;
  }

  lemma {:induction false} StartedFrom(s: State, t: nat, m: State, e: State)
    requires Rested(s) && Enabled(s, Settles(t)) && m == After(s, Settles(t)) && OneStart(m, e) && |e.runs| > |m.runs|
    ensures e.handled.Some? && (t, e.handled.value) in Pairs(s)
  {
    var i :| 0 <= i < |m.calls| && Woken(m, m.calls[i]) && e.handled == Some(m.calls[i].key);
    WakesHere(s, t, i);
    assert (s.calls[i].on.run, s.calls[i].key) in Pairs(s);
  }

  lemma {:induction false} LastHandled(e: State, n: nat)
    requires Sound(e) && |e.runs| == n + 1
    ensures e.handled == Some(e.runs[n].key)
  {
  }

  /** A run that is started is for a key that waited for the settled one. */
  lemma {:induction false} StartedWaited(s: State, t: nat, order: seq<nat>)
    requires Sound(s) && Rested(s) && SettlesAndWakes(s, t, order)
    ensures var e := Woke(s, t, order);
      && |s.runs| <= |e.runs| <= |s.runs| + 1
      && (|e.runs| > |s.runs| ==> e.handled == Some(e.runs[|s.runs|].key) && (t, e.runs[|s.runs|].key) in Pairs(s))
  {
    var m, e := After(s, Settles(t)), Woke(s, t, order);
    WakingIsPaidFor(s, t, order);
    if |e.runs| > |s.runs| {
      SettlesSound(s, t);
      Drains(m, order);
      StartedFrom(s, t, m, e);
      LastHandled(e, |s.runs|);
    }
  }

  lemma {:induction false} SettleKeepsKeys(s: State, t: nat, order: seq<nat>)
    requires Sound(s) && Rested(s) && SettlesAndWakes(s, t, order)
    ensures SameKeys(s.runs, Woke(s, t, order).runs)
  {
    var m, e := After(s, Settles(t)), Woke(s, t, order);
    WakingIsPaidFor(s, t, order);
    SameKeysAfter(s.runs, m.runs, e.runs);
  }

  lemma {:induction false} SameKeysAfter(a: seq<Run>, m: seq<Run>, e: seq<Run>)
    requires |a| == |m| && RunsAfter(m, e) && forall i :: 0 <= i < |a| ==> m[i].key == a[i].key
    ensures SameKeys(a, e)
  {
    forall i | 0 <= i < |a|
      ensures e[i].key == a[i].key
    {
      if e != m {
        assert e[..|m|][i] == m[i];
      }
    }
  }

  lemma {:induction false} SettleKeepsWaiting(s: State, t: nat, order: seq<nat>)
    requires Sound(s) && Rested(s) && SettlesAndWakes(s, t, order)
    ensures WaitingKeys(Woke(s, t, order)) <= WaitingKeys(s)
  {
    var e := Woke(s, t, order);
    forall k | k in WaitingKeys(e)
      ensures k in WaitingKeys(s)
    {
      var i := KeyHasPair(e, k);
      var q := PairFrom(s, t, order, (e.calls[i].on.run, k));
      PairKeys(s, q);
    }
  }

  lemma {:induction false} SettleFromWaiting(s: State, t: nat, order: seq<nat>)
    requires Sound(s) && Rested(s) && SettlesAndWakes(s, t, order)
    ensures FromWaiting(s, Woke(s, t, order))
  {
    StartedWaited(s, t, order);
    SettleKeepsKeys(s, t, order);
    SettleKeepsWaiting(s, t, order);
    FromWaitingIs(s, Woke(s, t, order), t);
  }

  lemma {:induction false} FromWaitingIs(s: State, e: State, t: nat)
    requires SameKeys(s.runs, e.runs) && WaitingKeys(e) <= WaitingKeys(s) && |e.runs| <= |s.runs| + 1
    requires |e.runs| > |s.runs| ==> (t, e.runs[|s.runs|].key) in Pairs(s)
    ensures FromWaiting(s, e)
  {
    if |e.runs| > |s.runs| {
      PairKeys(s, (t, e.runs[|s.runs|].key));
    }
  }

  lemma {:induction false} SettlePays(s: State, t: nat, order: seq<nat>, k: Key)
    requires Sound(s) && Rested(s) && SettlesAndWakes(s, t, order)
    ensures Pays(s, Woke(s, t, order), k) && FromWaiting(s, Woke(s, t, order))
  {
    var e := Woke(s, t, order);
    SettleFromWaiting(s, t, order);
    StartedWaited(s, t, order);
    PairsLeft(s, t, order, k);
    RunsSplit(s.runs, e.runs, k, 0);
    if |e.runs| > |s.runs| {
      assert RunsFrom(e.runs, k, |s.runs| + 1) == 0;
    }
  }

  lemma {:induction false} TurnPays(s: State, turn: Turn, k: Key)
    requires Sound(s) && Rested(s) && Possible(s, turn)
    ensures Pays(s, AfterTurn(s, turn), k) && FromWaiting(s, AfterTurn(s, turn))
  {
    match turn
    case End(t, ok) => EndPays(s, t, ok, k);
    case Settle(t, order) => SettlePays(s, t, order, k);
  }

  lemma {:induction false} FromWaitingTwice(s: State, m: State, e: State)
    requires FromWaiting(s, m) && FromWaiting(m, e)
    ensures FromWaiting(s, e)
  {
    forall i | |s.runs| <= i < |e.runs|
      ensures e.runs[i].key in WaitingKeys(s)
    {
      if i < |m.runs| {
        assert e.runs[i].key == m.runs[i].key;
      }
    }
  }

  lemma {:induction false} TurnsPay(s: State, turns: seq<Turn>, k: Key)
    requires Sound(s) && Rested(s) && Quiet(s, turns)
    ensures var e := AfterTurns(s, turns); Sound(e) && Pays(s, e, k) && FromWaiting(s, e)
    decreases |turns|
  {
    if turns != [] {
      var m := AfterTurn(s, turns[0]);
      TurnProgress(s, turns[0]);
      TurnPays(s, turns[0], k);
      TurnsPay(m, turns[1..], k);
      FromWaitingTwice(s, m, AfterTurns(s, turns));
    }
  }

  // ---------- the bound holds ----------

  lemma {:induction false} AtMostOnePair(s: State, k: Key)
    requires !Twice(s, k)
    ensures |PairsWith(s, k)| <= 1
  {
    var ps := PairsWith(s, k);
    if ps != {} {
      var p :| p in ps;
      forall q | q in ps
        ensures q == p
      {
        var i :| 0 <= i < |s.calls| && s.calls[i].on.Waiting? && p == (s.calls[i].on.run, s.calls[i].key);
        var j :| 0 <= j < |s.calls| && s.calls[j].on.Waiting? && q == (s.calls[j].on.run, s.calls[j].key);
      }
      assert ps == {p};
    }
  }

  lemma {:induction false} PairsByKey(pairs: set<(nat, Key)>, keys: set<Key>)
    requires forall p :: p in pairs ==> p.1 in keys
    requires forall p, q :: p in pairs && q in pairs && p.1 == q.1 ==> p == q
    ensures |pairs| <= |keys|
    decreases |keys|
  {
    if pairs != {} {
      var p :| p in pairs;
      PairsByKey(pairs - {p}, keys - {p.1});
    }
  }

  lemma {:induction false} NoneTwice(s: State)
    requires forall a :: !Twice(s, a)
    ensures |Pairs(s)| <= |WaitingKeys(s)|
  {
    forall p, q | p in Pairs(s) && q in Pairs(s) && p.1 == q.1
      ensures p == q
    {
      AtMostOnePair(s, p.1);
      var ps := PairsWith(s, p.1);
      assert p in ps && q in ps;
      SmallerSet({p, q}, ps);
    }
    forall p | p in Pairs(s)
      ensures p.1 in WaitingKeys(s)
    {
      PairKeys(s, p);
    }
    PairsByKey(Pairs(s), WaitingKeys(s));
  }

  lemma {:induction false} SmallerSet<T>(a: set<T>, b: set<T>)
    requires a <= b
    ensures |a| <= |b|
  {
    assert |b - a| == |b| - |a|;
  }

  lemma {:induction false} OnlyElement(keys: set<Key>, a: Key, b: Key)
    requires a in keys && b in keys && |keys| == 1
    ensures a == b
  {
    if a != b {
      SmallerSet({a, b}, keys);
    }
  }

  /** Of two keys, one is `a`; the other is the same every time. */
  lemma {:induction false} OtherElement(keys: set<Key>, a: Key, b: Key, c: Key)
    requires a in keys && b in keys && c in keys && |keys| <= 2 && b != a && c != a
    ensures b == c
  {
    if b != c {
      SmallerSet({a, b, c}, keys);
    }
  }

  lemma {:induction false} SizeAtLeastOne(keys: set<Key>, a: Key)
    requires a in keys
    ensures |keys| >= 1
  {
    SmallerSet({a}, keys);
  }

  /** One key cannot run twice in a row. */
  lemma {:induction false} OnlyKeyRunsOnce(s: State, turns: seq<Turn>)
    requires Sound(s) && Rested(s) && Quiet(s, turns) && |WaitingKeys(s)| == 1
    ensures |AfterTurns(s, turns).runs| <= |s.runs| + 1
  {
    var e, n := AfterTurns(s, turns), |s.runs|;
    TurnsPay(s, turns, "");
    if |e.runs| > n + 1 {
      OnlyElement(WaitingKeys(s), e.runs[n].key, e.runs[n + 1].key);
      assert false;
    }
  }

  /** Three more runs for two keys, after one for `a`: the other key runs first and third. */
  lemma {:induction false} ThreeMore(runs: seq<Run>, n: nat, keys: set<Key>, a: Key)
    requires 1 <= n && n + 2 < |runs| && RunsApart(runs) && runs[n - 1].key == a
    requires |keys| == 2 && a in keys && forall i :: n <= i < |runs| ==> runs[i].key in keys
    ensures runs[n].key != a && RunsFrom(runs, runs[n].key, n) >= 2
  {
    var b, c, d := runs[n].key, runs[n + 1].key, runs[n + 2].key;
    assert b != a && c != b && d != c;
    if c != a {
      OtherElement(keys, a, b, c);
      assert false;
    }
    OtherElement(keys, a, b, d);
    assert RunsFrom(runs, b, n + 2) >= 1;
    assert RunsFrom(runs, b, n) == 1 + RunsFrom(runs, b, n + 1);
  }

  /** Two keys, one of them handled last, the other waiting once: it runs once, and the
      handled one after it. */
  lemma {:induction false} HandledWaitsForOther(s: State, turns: seq<Turn>, a: Key)
    requires Sound(s) && Rested(s) && Quiet(s, turns) && |WaitingKeys(s)| == 2
    requires s.handled == Some(a) && a in WaitingKeys(s) && forall b :: b != a ==> !Twice(s, b)
    ensures |AfterTurns(s, turns).runs| <= |s.runs| + 2
  {
    var e, n := AfterTurns(s, turns), |s.runs|;
    TurnsPay(s, turns, a);
    if |e.runs| > n + 2 {
      ThreeMore(e.runs, n, WaitingKeys(s), a);
      var b := e.runs[n].key;
      TurnsPay(s, turns, b);
      AtMostOnePair(s, b);
      RunsSplit(s.runs, e.runs, b, 0);
      assert false;
    }
  }

  lemma {:induction false} TwiceWaits(s: State, a: Key)
    requires Twice(s, a)
    ensures a in WaitingKeys(s) && |WaitingKeys(s)| >= 1
  {
    SizeAtLeastOne(WaitingKeys(s), a);
  }

  lemma {:induction false} UnrepeatedBound(s: State, turns: seq<Turn>)
    requires Sound(s) && Rested(s) && Unrepeated(s) && Quiet(s, turns)
    ensures |AfterTurns(s, turns).runs| <= |s.runs| + |WaitingKeys(s)|
  {
    if a :| Twice(s, a) {
      TwiceWaits(s, a);
      if |WaitingKeys(s)| == 1 {
        OnlyKeyRunsOnce(s, turns);
      } else {
        HandledWaitsForOther(s, turns, a);
      }
    } else {
      NoneTwice(s);
      FurtherRuns(s, turns);
    }
  }

  // ---------- the bound fails ----------

  ghost predicate Calm(s: State) {
    Sound(s) && Rested(s) && s.inFlight == None
  }

  lemma {:induction false} QuietFirst(s: State, a: seq<Turn>)
    requires a != [] && Quiet(s, a)
    ensures Possible(s, a[0]) && Quiet(AfterTurn(s, a[0]), a[1..])
    ensures AfterTurns(s, a) == AfterTurns(AfterTurn(s, a[0]), a[1..])
  {
  }

  lemma {:induction false} QuietAppend(s: State, a: seq<Turn>, b: seq<Turn>)
    requires Quiet(s, a) && Quiet(AfterTurns(s, a), b)
    ensures Quiet(s, a + b) && AfterTurns(s, a + b) == AfterTurns(AfterTurns(s, a), b)
    decreases |a|, 1
  {
    if a == [] {
      assert a + b == b;
    } else {
      QuietFirst(s, a);
      AppendAfter(s, a[0], AfterTurn(s, a[0]), a[1..], b, AfterTurns(s, a));
      FirstOfBoth(a, b);
    }
  }

  lemma {:induction false} FirstOfBoth<T>(a: seq<T>, b: seq<T>)
    requires a != []
    ensures [a[0]] + (a[1..] + b) == a + b
  {
    assert a == [a[0]] + a[1..];
  }

  lemma {:induction false} AppendAfter(s: State, turn: Turn, m: State, rest: seq<Turn>, b: seq<Turn>, e: State)
    requires Possible(s, turn) && m == AfterTurn(s, turn)
    requires Quiet(m, rest) && e == AfterTurns(m, rest) && Quiet(e, b)
    ensures Quiet(s, [turn] + (rest + b)) && AfterTurns(s, [turn] + (rest + b)) == AfterTurns(e, b)
    decreases |rest|, 2
  {
    QuietAppend(m, rest, b);
    QuietCons(s, turn, rest + b);
  }

  lemma {:induction false} OneTurn(s: State, turn: Turn)
    requires Possible(s, turn)
    ensures Quiet(s, [turn]) && AfterTurns(s, [turn]) == AfterTurn(s, turn)
  {
    assert [turn][1..] == [];
  }

  /** A running run may end. */
  lemma {:induction false} BecomesCalm(s: State) returns (turns: seq<Turn>)
    requires Sound(s) && Rested(s)
    ensures Quiet(s, turns)
    ensures var e := AfterTurns(s, turns);
      Calm(e) && e.calls == s.calls && e.handled == s.handled && |e.runs| == |s.runs|
  {
    turns := [];
    if s.inFlight.Some? {
      var t := s.inFlight.value;
      OneTurn(s, End(t, true));
      TurnProgress(s, End(t, true));
      turns := [End(t, true)];
    }
  }

  /** Where a call is after the callers of run `t` have woken while run `r` is in flight. */
  ghost predicate MovedCall(s: State, c: Call, d: Call, t: nat, woken: bool) {
    d == if woken && c.on == Waiting(t) then Call(c.key, PlaceOf(s, c.key)) else c
  }

  /** Waking while a run is in flight starts nothing. */
  lemma {:induction false} WakesIntoFlight(s: State, t: nat, from: nat)
    requires Sound(s) && t < |s.runs| && s.runs[t].phase.Settled? && from <= |s.calls| && s.inFlight.Some?
    ensures Wakeable(s, WaitersFrom(s.calls, t, from))
    ensures var e := Drained(s, WaitersFrom(s.calls, t, from));
      && e.handled == s.handled && e.inFlight == s.inFlight && e.runs == s.runs && |e.calls| == |s.calls|
      && forall j :: 0 <= j < |s.calls| ==> MovedCall(s, s.calls[j], e.calls[j], t, j >= from)
    decreases |s.calls| - from
  {
    WaitersWake(s, t, from);
    if from < |s.calls| {
      if s.calls[from].on == Waiting(t) {
        WakeNext(s, t, from);
        WakesIntoFlight(After(s, Wakes(from)), t, from + 1);
        MovesNext(s, After(s, Wakes(from)), Drained(s, WaitersFrom(s.calls, t, from)), t, from);
      } else {
        WakesIntoFlight(s, t, from + 1);
      }
    }
  }

  lemma {:induction false} MovesNext(s: State, m: State, e: State, t: nat, from: nat)
    requires from < |s.calls| && s.calls[from].on == Waiting(t) && s.inFlight.Some?
    requires m == s.(calls := s.calls[from := Call(s.calls[from].key, PlaceOf(s, s.calls[from].key))])
    requires |e.calls| == |m.calls| && forall j :: 0 <= j < |m.calls| ==> MovedCall(m, m.calls[j], e.calls[j], t, j >= from + 1)
    ensures |e.calls| == |s.calls| && forall j :: 0 <= j < |s.calls| ==> MovedCall(s, s.calls[j], e.calls[j], t, j >= from)
  {
    forall j | 0 <= j < |s.calls|
      ensures MovedCall(s, s.calls[j], e.calls[j], t, j >= from)
    {
      assert MovedCall(m, m.calls[j], e.calls[j], t, j >= from + 1);
    }
  }

  /** What starting a run for the key of call `i` does to the others that wait: with that
      call's run they now wait for the new one, unless they have its key. */
  ghost predicate StartedFor(s: State, e: State, i: nat, j: nat)
    requires i < |s.calls| && j < |s.calls| == |e.calls| && s.calls[i].on.Waiting?
  {
    && e.calls[j].key == s.calls[j].key
    && (s.calls[j].on.Waiting? ==>
          if s.calls[j].on.run != s.calls[i].on.run then e.calls[j] == s.calls[j]
          else s.calls[j].key != s.calls[i].key ==> e.calls[j].on == Waiting(|s.runs|))
    && (e.calls[j].on.Waiting? ==> s.calls[j].on.Waiting?)
  }

  ghost predicate AllStartedFor(s: State, e: State, i: nat)
    requires i < |s.calls| && s.calls[i].on.Waiting?
  {
    |e.calls| == |s.calls| && forall j :: 0 <= j < |s.calls| ==> StartedFor(s, e, i, j)
  }

  lemma {:induction false} WaitedIsCleared(s: State, i: nat)
    requires Calm(s) && i < |s.calls| && s.calls[i].on.Waiting?
    ensures s.calls[i].on.run < |s.runs| && s.runs[s.calls[i].on.run].phase.Cleared?
  {
    assert CallFits(s.runs, s.calls[i]) && !Woken(s, s.calls[i]);
    var t := s.calls[i].on.run;
    if s.runs[t].phase == Running {
      assert false;
    }
  }

  /** Any caller whose key was not handled last can be the first to wake, and starts a run. */
  lemma {:induction false} StartsFirst(s: State, i: nat) returns (turns: seq<Turn>)
    requires Calm(s) && i < |s.calls| && s.calls[i].on.Waiting? && s.handled != Some(s.calls[i].key)
    ensures Quiet(s, turns) && turns != []
    ensures var e := AfterTurns(s, turns);
      Calm(e) && e.handled == Some(s.calls[i].key) && |e.runs| == |s.runs| + 1 && AllStartedFor(s, e, i)
  {
    WaitedIsCleared(s, i);
    var t, r := s.calls[i].on.run, |s.runs|;
    var m := After(s, Settles(t));
    SettlesSound(s, t);
    var m1 := After(m, Wakes(i));
    StepSound(m, Wakes(i));
    WakesIntoFlight(m1, t, 0);
    WaitersListed(m1.calls, t, 0);
    var rest := WaitersFrom(m1.calls, t, 0);
    var order := [i] + rest;
    assert order[1..] == rest;
    var e := Woke(s, t, order);
    forall j: nat | j < |s.calls| && s.calls[j].on == Waiting(t)
      ensures j in order
    {
      if j != i {
        assert m1.calls[j] == s.calls[j];
      }
    }
    TurnProgress(s, Settle(t, order));
    OneTurn(s, Settle(t, order));
    EndsAfterStart(s, m1, e, i);
    var more := BecomesCalm(e);
    QuietAppend(s, [Settle(t, order)], more);
    turns := [Settle(t, order)] + more;
    AllStartedKept(s, e, AfterTurns(s, turns), i);
  }

  lemma {:induction false} EndsAfterStart(s: State, m1: State, e: State, i: nat)
    requires Calm(s) && i < |s.calls| && s.calls[i].on.Waiting? && s.handled != Some(s.calls[i].key)
    requires s.calls[i].on.run < |s.runs| && s.runs[s.calls[i].on.run].phase.Cleared?
    requires m1 == After(After(s, Settles(s.calls[i].on.run)), Wakes(i))
    requires |e.calls| == |m1.calls|
    requires forall j :: 0 <= j < |m1.calls| ==> MovedCall(m1, m1.calls[j], e.calls[j], s.calls[i].on.run, j >= 0)
    ensures m1.handled == Some(s.calls[i].key) && m1.inFlight == Some(|s.runs|) && |m1.runs| == |s.runs| + 1
    ensures AllStartedFor(s, e, i)
  {
    forall j | 0 <= j < |s.calls|
      ensures StartedFor(s, e, i, j)
    {
      assert MovedCall(m1, m1.calls[j], e.calls[j], s.calls[i].on.run, j >= 0);
    }
  }

  lemma {:induction false} AllStartedKept(s: State, e: State, f: State, i: nat)
    requires i < |s.calls| && s.calls[i].on.Waiting? && AllStartedFor(s, e, i) && f.calls == e.calls
    ensures AllStartedFor(s, f, i)
  {
    forall j | 0 <= j < |s.calls|
      ensures StartedFor(s, f, i, j)
    {
      assert StartedFor(s, e, i, j);
    }
  }

  /** No other key is lost by the start of one. */
  lemma {:induction false} OtherKeysWait(s: State, e: State, i: nat)
    requires i < |s.calls| && s.calls[i].on.Waiting? && AllStartedFor(s, e, i)
    ensures WaitingKeys(s) - {s.calls[i].key} <= WaitingKeys(e) <= WaitingKeys(s)
  {
    forall k | k in WaitingKeys(s) && k != s.calls[i].key
      ensures k in WaitingKeys(e)
    {
      var j := KeyHasPair(s, k);
      assert StartedFor(s, e, i, j);
    }
    forall k | k in WaitingKeys(e)
      ensures k in WaitingKeys(s)
    {
      var j := KeyHasPair(e, k);
      assert StartedFor(s, e, i, j);
    }
  }

  /** The key that started still waits if it waited for another run too. */
  lemma {:induction false} StillWaits(s: State, e: State, i: nat, j: nat)
    requires i < |s.calls| && s.calls[i].on.Waiting? && AllStartedFor(s, e, i)
    requires j < |s.calls| && s.calls[j].on.Waiting? && s.calls[j].on.run != s.calls[i].on.run
    ensures s.calls[j].key in WaitingKeys(e)
  {
    assert StartedFor(s, e, i, j);
  }

  /** Another key that waited for two runs still does. */
  lemma {:induction false} StillTwice(s: State, e: State, i: nat, a: Key)
    requires Sound(s) && i < |s.calls| && s.calls[i].on.Waiting? && AllStartedFor(s, e, i)
    requires Twice(s, a) && a != s.calls[i].key
    ensures Twice(e, a)
  {
    var j, l :|
      && 0 <= j < |s.calls| && s.calls[j].on.Waiting? && s.calls[j].key == a
      && 0 <= l < |s.calls| && s.calls[l].on.Waiting? && s.calls[l].key == a
      && s.calls[j].on.run != s.calls[l].on.run;
    assert StartedFor(s, e, i, j) && StartedFor(s, e, i, l);
    assert CallFits(s.runs, s.calls[j]) && CallFits(s.runs, s.calls[l]);
    assert e.calls[j].on.Waiting? && e.calls[l].on.Waiting? && e.calls[j].on.run != e.calls[l].on.run;
  }

  /** The waiting keys that were not handled last. */
  ghost function OtherKeys(s: State): set<Key> {
    set k | k in WaitingKeys(s) && s.handled != Some(k)
  }

  lemma {:induction false} OthersAre(s: State, a: Key)
    requires s.handled == Some(a)
    ensures OtherKeys(s) == WaitingKeys(s) - {a}
  {
  }

  lemma {:induction false} TwiceCalls(s: State, a: Key) returns (i: nat, j: nat)
    requires Twice(s, a)
    ensures i < |s.calls| && s.calls[i].on.Waiting? && s.calls[i].key == a
    ensures j < |s.calls| && s.calls[j].on.Waiting? && s.calls[j].key == a
    ensures s.calls[i].on.run != s.calls[j].on.run
  {
    i, j :|
      && i < |s.calls| && s.calls[i].on.Waiting? && s.calls[i].key == a
      && j < |s.calls| && s.calls[j].on.Waiting? && s.calls[j].key == a
      && s.calls[i].on.run != s.calls[j].on.run;
  }

  lemma {:induction false} LessOne(keys: set<Key>, a: Key)
    requires a in keys
    ensures |keys - {a}| == |keys| - 1
  {
  }

  /** Every waiting key but the one handled last can run, and that one too if there is
      another. */
  lemma {:induction false} EveryKeyRuns(s: State) returns (turns: seq<Turn>)
    requires Calm(s)
    ensures Quiet(s, turns)
    ensures var n := |AfterTurns(s, turns).runs| - |s.runs|;
      n >= |OtherKeys(s)| && (OtherKeys(s) != {} ==> n >= |WaitingKeys(s)|)
    decreases Rank(s)
  {
    turns := [];
    if OtherKeys(s) != {} {
      var b :| b in OtherKeys(s);
      var i := KeyHasPair(s, b);
      var first := StartsFirst(s, i);
      var e := AfterTurns(s, first);
      FurtherRuns(s, first);
      OtherKeysWait(s, e, i);
      var more := EveryKeyRuns(e);
      QuietAppend(s, first, more);
      turns := first + more;
      LessOne(WaitingKeys(s), b);
      OthersAre(e, b);
      assert OtherKeys(e) == WaitingKeys(s) - {b};
      SmallerSet(OtherKeys(s), WaitingKeys(s));
    }
  }

  /** A key that waits for two runs runs twice if there is another key to run in between. */
  lemma {:induction false} RunsTwice(s: State, a: Key) returns (turns: seq<Turn>)
    requires Calm(s) && Twice(s, a) && s.handled != Some(a) && |WaitingKeys(s)| >= 2
    ensures Quiet(s, turns) && |AfterTurns(s, turns).runs| > |s.runs| + |WaitingKeys(s)|
  {
    var i, j := TwiceCalls(s, a);
    var first := StartsFirst(s, i);
    var e := AfterTurns(s, first);
    OtherKeysWait(s, e, i);
    StillWaits(s, e, i, j);
    assert WaitingKeys(e) == WaitingKeys(s);
    var more := EveryKeyRuns(e);
    QuietAppend(s, first, more);
    turns := first + more;
    LessOne(WaitingKeys(s), a);
    OthersAre(e, a);
  }

  /** So does the key handled last, if there are two others. */
  lemma {:induction false} HandledRunsTwice(s: State, a: Key) returns (turns: seq<Turn>)
    requires Calm(s) && Twice(s, a) && s.handled == Some(a) && |WaitingKeys(s)| >= 3
    ensures Quiet(s, turns) && |AfterTurns(s, turns).runs| > |s.runs| + |WaitingKeys(s)|
  {
    TwiceWaits(s, a);
    LessOne(WaitingKeys(s), a);
    var b :| b in WaitingKeys(s) - {a};
    var i := KeyHasPair(s, b);
    var first := StartsFirst(s, i);
    var e := AfterTurns(s, first);
    OtherKeysWait(s, e, i);
    StillTwice(s, e, i, a);
    LessOne(WaitingKeys(s), b);
    SmallerSet(WaitingKeys(s) - {b}, WaitingKeys(e));
    var more := RunsTwice(e, a);
    QuietAppend(s, first, more);
    turns := first + more;
  }

  lemma {:induction false} RepeatedExceeds(s: State, a: Key) returns (turns: seq<Turn>)
    requires Sound(s) && Rested(s) && Twice(s, a) && |WaitingKeys(s)| > (if s.handled == Some(a) then 2 else 1)
    ensures Quiet(s, turns) && |AfterTurns(s, turns).runs| > |s.runs| + |WaitingKeys(s)|
  {
    var first := BecomesCalm(s);
    var e := AfterTurns(s, first);
    assert WaitingKeys(e) == WaitingKeys(s);
    assert Twice(e, a);
    var more;
    if s.handled == Some(a) {
      more := HandledRunsTwice(e, a);
    } else {
      more := RunsTwice(e, a);
    }
    QuietAppend(s, first, more);
    turns := first + more;
  }

  /** Exactly when the bound by keys holds: with no new arrivals there are never more runs
      than waiting keys if and only if no key waits for two runs, but for the only key, and
      but for the key handled last when there is one other. */
  lemma {:induction false} FurtherRunsByKeyExactly(s: State)
    requires Sound(s) && Rested(s)
    ensures OnePerKey(s) <==> Unrepeated(s)
  {
    if Unrepeated(s) {
      forall turns | Quiet(s, turns)
        ensures |AfterTurns(s, turns).runs| <= |s.runs| + |WaitingKeys(s)|
      {
        UnrepeatedBound(s, turns);
      }
    } else {
      var a :| Twice(s, a) && |WaitingKeys(s)| > (if s.handled == Some(a) then 2 else 1);
      var turns := RepeatedExceeds(s, a);
    }
  }
}
