/** The session-expiry guard: many calls, one clean-up run at a time
    (web/src/ask-transport.ts:29-43). Promises are modelled by the turns of the event loop
    that touch the guard: a call arrives, the handler of a run ends, a run's promise
    settles, a waiting call wakes and asks again. The handler does not call the guard
    before it returns its promise. */
module ExpiryGuard {

  datatype Option<+T> = None | Some(value: T)

  type Key = string

  /** A run of the handler: running; ended, with the `finally` callback done; or its promise
      settled too. `ok` is false when the handler rejects. */
  datatype Phase = Running | Cleared(ok: bool) | Settled(ok: bool)

  datatype Run = Run(key: Key, phase: Phase)

  /** What a caller's promise hangs on: a run, the end of a run after which the guard is
      asked again, or nothing any more. */
  datatype Place = OnRun(run: nat) | Waiting(run: nat) | Finished(ok: bool)

  datatype Call = Call(key: Key, on: Place)

  datatype State = State(handled: Option<Key>, inFlight: Option<nat>, runs: seq<Run>, calls: seq<Call>)

  const INITIAL := State(None, None, [], [])

  /** `expire(key)`: the guard's state after the call, and where the call hangs. */
  function Enter(s: State, key: Key): State {
    if s.handled != Some(key) && s.inFlight == None
    then s.(handled := Some(key), inFlight := Some(|s.runs|), runs := s.runs + [Run(key, Running)])
    else s
  }

  function PlaceOf(s: State, key: Key): Place {
    if s.handled == Some(key) then (if s.inFlight.Some? then OnRun(s.inFlight.value) else Finished(true))
    else if s.inFlight.Some? then Waiting(s.inFlight.value)
    else OnRun(|s.runs|)
  }

  datatype Step = Arrive(key: Key) | Ends(run: nat, ok: bool) | Settles(run: nat) | Wakes(call: nat)

  predicate Enabled(s: State, step: Step) {
    match step
    case Arrive(_) => true
    case Ends(t, _) => t < |s.runs| && s.runs[t].phase == Running
    case Settles(t) => t < |s.runs| && s.runs[t].phase.Cleared?
    case Wakes(c) => c < |s.calls| && Woken(s, s.calls[c])
  }

  /** A call that waited for a run whose promise has settled. */
  predicate Woken(s: State, c: Call) {
    c.on.Waiting? && c.on.run < |s.runs| && s.runs[c.on.run].phase.Settled?
  }

  function Finish(calls: seq<Call>, t: nat, ok: bool): (r: seq<Call>)
    ensures |r| == |calls|
    ensures forall i :: 0 <= i < |r| ==> r[i] == if calls[i].on == OnRun(t) then Call(calls[i].key, Finished(ok)) else calls[i]
  {
    if calls == [] then []
    else [if calls[0].on == OnRun(t) then Call(calls[0].key, Finished(ok)) else calls[0]] + Finish(calls[1..], t, ok)
  }

  function After(s: State, step: Step): State
    requires Enabled(s, step)
  {
    match step
    case Arrive(key) => Enter(s, key).(calls := s.calls + [Call(key, PlaceOf(s, key))])
    case Ends(t, ok) =>
      s.(inFlight := if s.inFlight == Some(t) then None else s.inFlight,
         runs := s.runs[t := Run(s.runs[t].key, Cleared(ok))])
    case Settles(t) =>
      var ok := s.runs[t].phase.ok;
      s.(runs := s.runs[t := Run(s.runs[t].key, Settled(ok))], calls := Finish(s.calls, t, ok))
    case Wakes(c) =>
      var key := s.calls[c].key;
      Enter(s, key).(calls := s.calls[c := Call(key, PlaceOf(s, key))])
  }

  // ---------- the guard itself ----------

  class SessionGuard {
    var handledKey: Option<Key>
    var inFlight: Option<nat>
    var runs: seq<Run>
    var calls: seq<Call>

    function View(): State
      reads this
    {
      State(handledKey, inFlight, runs, calls)
    }

    constructor ()
      ensures View() == INITIAL
    {
      handledKey, inFlight, runs, calls := None, None, [], [];
    }

    /** Whoever calls a sound guard leaves it sound, and gets a promise that hangs on a run
        for its own key, or on the end of another key's run, or is settled because a run for
        its key has ended. A run is started only if none is in flight. */
    method Expire(sessionKey: Key) returns (place: Place)
      modifies this`handledKey, this`inFlight, this`runs
      ensures View() == Enter(old(View()), sessionKey) && place == PlaceOf(old(View()), sessionKey)
      ensures Sound(old(View())) ==> Sound(View()) && CallFits(runs, Call(sessionKey, place))
      ensures runs == old(runs) || (old(inFlight) == None && runs == old(runs) + [Run(sessionKey, Running)])
    {
      if Sound(View()) {
        EnterSound(View(), sessionKey);
      }
      if Some(sessionKey) == handledKey {
        return if inFlight.Some? then OnRun(inFlight.value) else Finished(true);
      }
      if inFlight.Some? {
        return Waiting(inFlight.value);
      }
      handledKey := Some(sessionKey);
      var task := |runs|;
      runs := runs + [Run(sessionKey, Running)];
      inFlight := Some(task);
      return OnRun(task);
    }

    method Arrives(sessionKey: Key)
      modifies this
      ensures View() == After(old(View()), Arrive(sessionKey))
    {
      var place := Expire(sessionKey);
      calls := calls + [Call(sessionKey, place)];
    }

    /** The `finally` callback. */
    method HandlerEnds(task: nat, ok: bool)
      requires Enabled(View(), Ends(task, ok))
      modifies this`inFlight, this`runs
      ensures View() == After(old(View()), Ends(task, ok))
    {
      runs := runs[task := Run(runs[task].key, Cleared(ok))];
      if inFlight == Some(task) {
        inFlight := None;
      }
    }

    /** The run's promise settles, and with it those of the callers that hang on it. */
    method PromiseSettles(task: nat)
      requires Enabled(View(), Settles(task))
      modifies this`runs, this`calls
      ensures View() == After(old(View()), Settles(task))
    {
      var ok := runs[task].phase.ok;
      runs := runs[task := Run(runs[task].key, Settled(ok))];
      calls := Finish(calls, task, ok);
    }

    /** Both callbacks of `inFlight.then`: ask again, whether the run went well or not. */
    method CallWakes(c: nat)
      requires Enabled(View(), Wakes(c))
      modifies this
      ensures View() == After(old(View()), Wakes(c))
    {
      var place := Expire(calls[c].key);
      calls := calls[c := Call(calls[c].key, place)];
    }

    /** Any interleaving of the event loop's turns. */
    method Play(steps: seq<Step>)
      requires Runnable(View(), steps)
      modifies this
      ensures View() == Finally(old(View()), steps)
      ensures Sound(old(View())) ==> Sound(View())
    {
      if Sound(View()) {
        AlwaysSound(View(), steps);
      }
      for k := 0 to |steps|
        invariant Runnable(View(), steps[k..]) && Finally(View(), steps[k..]) == Finally(old(View()), steps)
      {
        assert steps[k..][0] == steps[k] && steps[k..][1..] == steps[k + 1..];
        match steps[k]
        case Arrive(key) => Arrives(key);
        case Ends(t, ok) => HandlerEnds(t, ok);
        case Settles(t) => PromiseSettles(t);
        case Wakes(c) => CallWakes(c);
      }
      assert steps[|steps|..] == [];
    }

    /** A promise settles, and the callers that waited for it wake in the order they came. */
    method SettleAndWake(task: nat) returns (ghost order: seq<nat>)
      requires Sound(View()) && Enabled(View(), Settles(task))
      modifies this
      ensures SettlesAndWakes(old(View()), task, order) && View() == Woke(old(View()), task, order)
    {
      SettlesSound(View(), task);
      PromiseSettles(task);
      order := WaitersFrom(calls, task, 0);
      WaitersListed(calls, task, 0);
      WakeAll(task);
    }

    method WakeAll(task: nat)
      requires Sound(View()) && task < |runs| && runs[task].phase.Settled?
      modifies this
      ensures Wakeable(old(View()), WaitersFrom(old(calls), task, 0))
      ensures View() == Drained(old(View()), WaitersFrom(old(calls), task, 0))
    {
      WaitersWake(View(), task, 0);
      ghost var goal := Drained(View(), WaitersFrom(calls, task, 0));
      var n := |calls|;
      for c := 0 to n
        invariant |calls| == n && WakesTo(View(), task, c, goal)
      {
        if calls[c].on == Waiting(task) {
          WakeNext(View(), task, c);
          CallWakes(c);
        }
      }
    }

    /** Nobody new calls: runs end, well or not, and promises settle until nothing is left to
        do. Then every caller is finished, and the runs that it took were at most as many as
        there were pairs of a run and a key to wait with. */
    method Quiesce(ok: nat -> bool)
      requires Sound(View()) && Rested(View())
      modifies this
      ensures Sound(View()) && |calls| == old(|calls|)
      ensures forall i :: 0 <= i < |calls| ==> calls[i].on.Finished?
      ensures |runs| <= old(|runs| + |Pairs(View())|)
    {
      var t := 0;
      while t < |runs|
        invariant Sound(View()) && Rested(View()) && |calls| == old(|calls|) && t <= |runs|
        invariant forall i :: 0 <= i < t ==> runs[i].phase.Settled?
        invariant |runs| + |Pairs(View())| <= old(|runs| + |Pairs(View())|)
        decreases Rank(View()), |runs| - t
      {
        match runs[t].phase
        case Running =>
          TurnProgress(View(), End(t, ok(t)));
          HandlerEnds(t, ok(t));
        case Cleared(_) =>
          ghost var before := View();
          ghost var order := SettleAndWake(t);
          TurnProgress(before, Settle(t, order));
          SettledStay(before, t, order);
        case Settled(_) => t := t + 1;
      }
      AllSettledFinished(View());
    }
  }

  // ---------- safety ----------

  ghost predicate RunsApart(runs: seq<Run>) {
    forall i :: 0 <= i < |runs| - 1 ==> runs[i].phase != Running && runs[i].key != runs[i + 1].key
  }

  ghost predicate CallFits(runs: seq<Run>, c: Call) {
    match c.on
    case OnRun(t) => t < |runs| && runs[t].key == c.key && !runs[t].phase.Settled?
    case Waiting(t) => t < |runs| && runs[t].key != c.key
    case Finished(_) => exists t :: 0 <= t < |runs| && runs[t].key == c.key && runs[t].phase != Running
  }

  /** What every turn keeps: only the newest run may be running, and `inFlight` says which;
      the key handled is the newest run's; neighbouring runs have different keys; every
      caller hangs on a run for its own key, waits for another key's, or is finished after
      a run for its key ended. */
  ghost predicate Sound(s: State) {
    && s.handled == (if s.runs == [] then None else Some(s.runs[|s.runs| - 1].key))
    && s.inFlight == (if s.runs != [] && s.runs[|s.runs| - 1].phase == Running then Some(|s.runs| - 1) else None)
    && RunsApart(s.runs)
    && forall i :: 0 <= i < |s.calls| ==> CallFits(s.runs, s.calls[i])
  }

  lemma {:induction false} EnterSound(s: State, key: Key)
    requires Sound(s)
    ensures Sound(Enter(s, key)) && CallFits(Enter(s, key).runs, Call(key, PlaceOf(s, key)))
  {
    var e := Enter(s, key);
    forall i | 0 <= i < |s.calls|
      ensures CallFits(e.runs, s.calls[i])
    {
      StillFits(s.runs, e.runs, s.calls[i]);
    }
    assert s.inFlight == None && s.handled == Some(key) ==> s.runs[|s.runs| - 1].key == key;
  }

  /** A call fits whatever happens to the phases of other runs. */
  lemma {:induction false} StillFits(runs: seq<Run>, more: seq<Run>, c: Call)
    requires CallFits(runs, c) && |runs| <= |more|
    requires forall i :: 0 <= i < |runs| ==> more[i].key == runs[i].key
    requires forall i :: 0 <= i < |runs| && runs[i].phase != Running ==> more[i].phase != Running
    requires c.on.OnRun? ==> !more[c.on.run].phase.Settled?
    ensures CallFits(more, c)
  {
    if c.on.Finished? {
      var t :| 0 <= t < |runs| && runs[t].key == c.key && runs[t].phase != Running;
      assert more[t].key == c.key && more[t].phase != Running;
    }
  }

  lemma {:induction false} EndsSound(s: State, t: nat, ok: bool)
    requires Sound(s) && Enabled(s, Ends(t, ok))
    ensures Sound(After(s, Ends(t, ok)))
  {
    var e := After(s, Ends(t, ok));
    forall i | 0 <= i < |s.calls|
      ensures CallFits(e.runs, s.calls[i])
    {
      StillFits(s.runs, e.runs, s.calls[i]);
    }
  }

  lemma {:induction false} SettlesSound(s: State, t: nat)
    requires Sound(s) && Enabled(s, Settles(t))
    ensures Sound(After(s, Settles(t)))
  {
    var e := After(s, Settles(t));
    forall i | 0 <= i < |s.calls|
      ensures CallFits(e.runs, e.calls[i])
    {
      if s.calls[i].on == OnRun(t) {
        assert e.runs[t].key == s.calls[i].key && e.runs[t].phase != Running;
      } else {
        StillFits(s.runs, e.runs, s.calls[i]);
      }
    }
  }

  lemma {:induction false} StepSound(s: State, step: Step)
    requires Sound(s) && Enabled(s, step)
    ensures Sound(After(s, step))
  {
    match step
    case Arrive(key) => EnterSound(s, key);
    case Ends(t, ok) => EndsSound(s, t, ok);
    case Settles(t) => SettlesSound(s, t);
    case Wakes(c) => EnterSound(s, s.calls[c].key);
  }

  predicate Runnable(s: State, steps: seq<Step>)
    decreases |steps|
  {
    steps == [] || (Enabled(s, steps[0]) && Runnable(After(s, steps[0]), steps[1..]))
  }

  function Finally(s: State, steps: seq<Step>): State
    requires Runnable(s, steps)
    decreases |steps|
  {
    if steps == [] then s else Finally(After(s, steps[0]), steps[1..])
  }

  /** Every state of every interleaving is sound. */
  lemma {:induction false} AlwaysSound(s: State, steps: seq<Step>)
    requires Sound(s) && Runnable(s, steps)
    ensures Sound(Finally(s, steps))
    decreases |steps|
  {
    if steps != [] {
      StepSound(s, steps[0]);
      AlwaysSound(After(s, steps[0]), steps[1..]);
    }
  }

  /** In particular: handler runs never overlap, and consecutive runs are for different keys. */
  lemma {:induction false} RunsNeverOverlap(steps: seq<Step>, i: nat, j: nat)
    requires Runnable(INITIAL, steps)
    requires i < j < |Finally(INITIAL, steps).runs|
    ensures Finally(INITIAL, steps).runs[i].phase != Running
    ensures j == i + 1 ==> Finally(INITIAL, steps).runs[i].key != Finally(INITIAL, steps).runs[j].key
  {
    AlwaysSound(INITIAL, steps);
  }

  /** The key a step asks the guard for, if any. */
  predicate AsksFor(s: State, step: Step, key: Key)
    requires Enabled(s, step)
  {
    match step
    case Arrive(k) => k == key
    case Wakes(c) => s.calls[c].key == key
    case _ => true
  }

  predicate AllAskFor(s: State, steps: seq<Step>, key: Key)
    requires Runnable(s, steps)
    decreases |steps|
  {
    steps == [] || (AsksFor(s, steps[0], key) && AllAskFor(After(s, steps[0]), steps[1..], key))
  }

  /** However many calls ask for one key, they start at most one run between them, and none
      if that key was handled last. */
  lemma {:induction false} OneKeyOneRun(s: State, steps: seq<Step>, key: Key)
    requires Runnable(s, steps) && AllAskFor(s, steps, key)
    ensures |Finally(s, steps).runs| <= |s.runs| + (if s.handled == Some(key) then 0 else 1)
    decreases |steps|
  {
    if steps != [] {
      OneKeyOneRun(After(s, steps[0]), steps[1..], key);
    }
  }

  // ---------- progress ----------

  /** The callers that wait, by the run they wait for and their key. */
  ghost function Pairs(s: State): set<(nat, Key)> {
    set i | 0 <= i < |s.calls| && s.calls[i].on.Waiting? :: (s.calls[i].on.run, s.calls[i].key)
  }

  /** Nobody is still to be woken. */
  ghost predicate Rested(s: State) {
    forall i :: 0 <= i < |s.calls| ==> !Woken(s, s.calls[i])
  }

  /** The callers woken one after the other. */
  ghost predicate Wakeable(s: State, order: seq<nat>)
    decreases |order|
  {
    order == [] || (Enabled(s, Wakes(order[0])) && Wakeable(After(s, Wakes(order[0])), order[1..]))
  }

  function Drained(s: State, order: seq<nat>): State
    requires Wakeable(s, order)
    decreases |order|
  {
    if order == [] then s else Drained(After(s, Wakes(order[0])), order[1..])
  }

  /** What waking does to one caller: nothing, or it now hangs on the run in flight, or it
      waits for that run, which is for another key, or it is finished. */
  ghost predicate WokenInto(s: State, e: State, i: nat)
    requires i < |s.calls| == |e.calls|
  {
    && e.calls[i].key == s.calls[i].key
    && (e.calls[i].on.Waiting? ==>
          || e.calls[i] == s.calls[i]
          || (e.inFlight == Some(e.calls[i].on.run) && e.handled != Some(s.calls[i].key) && Woken(s, s.calls[i])))
  }

  ghost predicate AllWokenInto(s: State, e: State) {
    |s.calls| == |e.calls| && forall i :: 0 <= i < |s.calls| ==> WokenInto(s, e, i)
  }

  /** Waking starts at most one run, for the key of a caller that was to be woken. */
  ghost predicate OneStart(s: State, e: State) {
    || (e.runs == s.runs && e.handled == s.handled && e.inFlight == s.inFlight)
    || (s.inFlight == None && e.inFlight == Some(|s.runs|) && |e.runs| == |s.runs| + 1
        && e.runs[..|s.runs|] == s.runs && e.runs[|s.runs|].phase == Running
        && e.handled.Some?
        && exists i :: 0 <= i < |s.calls| && Woken(s, s.calls[i]) && e.handled == Some(s.calls[i].key))
  }

  lemma {:induction false} WakeOne(s: State, c: nat)
    requires Sound(s) && Enabled(s, Wakes(c))
    ensures var e := After(s, Wakes(c)); Sound(e) && AllWokenInto(s, e) && OneStart(s, e) && !Woken(e, e.calls[c])
  {
    StepSound(s, Wakes(c));
    var e := After(s, Wakes(c));
    if s.handled != Some(s.calls[c].key) && s.inFlight == None {
      assert e.runs[..|s.runs|] == s.runs;
    }
  }

  /** Whoever is to be woken at the end was to be woken at the start. */
  lemma {:induction false} WokenBefore(s: State, e: State, i: nat)
    requires Sound(s) && Sound(e) && OneStart(s, e) && |s.calls| == |e.calls| && i < |s.calls| && WokenInto(s, e, i)
    requires Woken(e, e.calls[i])
    ensures Woken(s, s.calls[i]) && e.calls[i] == s.calls[i]
  {
    var t := e.calls[i].on.run;
    assert e.inFlight != Some(t);
    if e.runs != s.runs {
      assert t < |s.runs|;
      assert e.runs[..|s.runs|][t] == s.runs[t];
    }
  }

  lemma {:induction false} WokenTwice(s: State, m: State, e: State, i: nat)
    requires Sound(s) && Sound(m) && OneStart(s, m) && OneStart(m, e) && |s.calls| == |m.calls| == |e.calls| && i < |s.calls|
    requires WokenInto(s, m, i) && WokenInto(m, e, i)
    ensures WokenInto(s, e, i)
  {
    if e.calls[i].on.Waiting? && e.calls[i] != m.calls[i] {
      WokenBefore(s, m, i);
    }
  }

  lemma {:induction false} StartTwice(s: State, m: State, e: State)
    requires Sound(s) && Sound(m) && AllWokenInto(s, m) && OneStart(s, m) && OneStart(m, e) && |m.calls| == |e.calls|
    ensures OneStart(s, e)
  {
    if m.inFlight == None && e.inFlight != None {
      var i :| 0 <= i < |m.calls| && Woken(m, m.calls[i]) && e.handled == Some(m.calls[i].key);
      assert WokenInto(s, m, i);
      WokenBefore(s, m, i);
    }
  }

  lemma {:induction false} Drains(s: State, order: seq<nat>)
    requires Sound(s) && Wakeable(s, order)
    ensures var e := Drained(s, order);
      && Sound(e) && AllWokenInto(s, e) && OneStart(s, e)
      && forall i :: 0 <= i < |s.calls| && Woken(e, e.calls[i]) ==> Woken(s, s.calls[i]) && i !in order
    decreases |order|
  {
    if order != [] {
      var m, e := After(s, Wakes(order[0])), Drained(s, order);
      WakeOne(s, order[0]);
      Drains(m, order[1..]);
      StartTwice(s, m, e);
      forall i | 0 <= i < |s.calls|
        ensures WokenInto(s, e, i)
        ensures Woken(e, e.calls[i]) ==> Woken(s, s.calls[i]) && i !in order
      {
        assert WokenInto(s, m, i) && WokenInto(m, e, i);
        WokenTwice(s, m, e, i);
        if Woken(e, e.calls[i]) {
          WokenBefore(s, m, i);
          assert i != order[0] && i !in order[1..];
        }
      }
    }
  }

  function Moved(t: nat, r: nat, p: (nat, Key)): (nat, Key) {
    if p.0 == t then (r, p.1) else p
  }

  lemma {:induction false} ImageSmall(t: nat, r: nat, a: set<(nat, Key)>, b: set<(nat, Key)>)
    requires forall p :: p in b ==> exists q :: q in a && Moved(t, r, q) == p
    ensures |b| <= |a|
    decreases |a|
  {
    if b != {} {
      var p :| p in b;
      var q :| q in a && Moved(t, r, q) == p;
      forall x | x in b - {p}
        ensures exists y :: y in a - {q} && Moved(t, r, y) == x
      {
        var y :| y in a && Moved(t, r, y) == x;
        assert y != q;
      }
      ImageSmall(t, r, a - {q}, b - {p});
    }
  }

  /** A run's promise settles: its callers are done, and those who waited for it wake, in
      some order. Between them nothing else runs. */
  ghost predicate SettlesAndWakes(s: State, t: nat, order: seq<nat>) {
    && Enabled(s, Settles(t))
    && Wakeable(After(s, Settles(t)), order)
    && forall i :: 0 <= i < |s.calls| && s.calls[i].on == Waiting(t) ==> i in order
  }

  function Woke(s: State, t: nat, order: seq<nat>): State
    requires Enabled(s, Settles(t)) && Wakeable(After(s, Settles(t)), order)
  {
    Drained(After(s, Settles(t)), order)
  }

  /** Each pair left waiting comes from a pair that waited before; the pair whose key was
      started is used up. */
  lemma {:induction false} PairFrom(s: State, t: nat, order: seq<nat>, p: (nat, Key)) returns (q: (nat, Key))
    requires Sound(s) && Rested(s) && SettlesAndWakes(s, t, order)
    requires p in Pairs(Woke(s, t, order))
    ensures var e := Woke(s, t, order);
      && q in Pairs(s) && Moved(t, if e.inFlight.Some? then e.inFlight.value else 0, q) == p
      && (q.0 == t ==> e.inFlight.Some? && e.handled != Some(q.1))
  {
    var m, e := After(s, Settles(t)), Woke(s, t, order);
    SettlesSound(s, t);
    Drains(m, order);
    var i :| 0 <= i < |e.calls| && e.calls[i].on.Waiting? && p == (e.calls[i].on.run, e.calls[i].key);
    assert WokenInto(m, e, i);
    assert m.calls[i].on.Waiting? && m.calls[i] == s.calls[i];
    q := (s.calls[i].on.run, s.calls[i].key);
    assert q in Pairs(s);
    assert CallFits(s.runs, s.calls[i]) && !Woken(s, s.calls[i]);
    if e.calls[i] == m.calls[i] && q.0 == t {
      StillSettled(m, e, t);
      assert Woken(e, e.calls[i]);
      assert false;
    }
  }

  lemma {:induction false} StillSettled(m: State, e: State, t: nat)
    requires OneStart(m, e) && t < |m.runs|
    ensures t < |e.runs| && e.runs[t] == m.runs[t]
  {
    if e.runs != m.runs {
      assert e.runs[..|m.runs|][t] == m.runs[t];
    }
  }

  /** Only a caller that waited for the settled run can wake. */
  lemma {:induction false} WakesHere(s: State, t: nat, i: nat)
    requires Rested(s) && Enabled(s, Settles(t)) && i < |s.calls|
    requires Woken(After(s, Settles(t)), After(s, Settles(t)).calls[i])
    ensures s.calls[i].on == Waiting(t)
  {
    assert !Woken(s, s.calls[i]);
  }

  /** The same runs, or one more, just started. */
  ghost predicate RunsAfter(m: seq<Run>, e: seq<Run>) {
    e == m || (|e| == |m| + 1 && e[..|m|] == m && e[|m|].phase == Running)
  }

  /** Settling a run and waking its waiters starts at most one run, and each run started
      uses up one waiting pair. */
  lemma {:induction false} WakingIsPaidFor(s: State, t: nat, order: seq<nat>)
    requires Sound(s) && Rested(s) && SettlesAndWakes(s, t, order)
    ensures var e := Woke(s, t, order);
      && Sound(e) && Rested(e)
      && |s.runs| <= |e.runs| <= |s.runs| + 1
      && |e.runs| + |Pairs(e)| <= |s.runs| + |Pairs(s)|
      && |Pairs(e)| <= |Pairs(s)|
      && RunsAfter(After(s, Settles(t)).runs, e.runs)
  {
    var m, e := After(s, Settles(t)), Woke(s, t, order);
    SettlesSound(s, t);
    Drains(m, order);
    forall i: nat | i < |e.calls|
      ensures !Woken(e, e.calls[i])
    {
      if Woken(e, e.calls[i]) {
        WakesHere(s, t, i);
        assert false;
      }
    }
    var r := if e.inFlight.Some? then e.inFlight.value else 0;
    var used: set<(nat, Key)> := {};
    if |e.runs| > |s.runs| {
      var i :| 0 <= i < |m.calls| && Woken(m, m.calls[i]) && e.handled == Some(m.calls[i].key);
      WakesHere(s, t, i);
      used := {(t, s.calls[i].key)};
      assert (s.calls[i].on.run, s.calls[i].key) in Pairs(s);
    }
    forall p | p in Pairs(e)
      ensures exists q :: q in Pairs(s) - used && Moved(t, r, q) == p
    {
      var q := PairFrom(s, t, order, p);
      assert q in Pairs(s) - used;
    }
    ImageSmall(t, r, Pairs(s) - used, Pairs(e));
    assert |Pairs(s) - used| == |Pairs(s)| - |used|;
  }

  // ---------- with no new arrivals ----------

  /** A turn of a guard nobody new calls. */
  datatype Turn = End(run: nat, ok: bool) | Settle(run: nat, order: seq<nat>)

  ghost predicate Possible(s: State, turn: Turn) {
    match turn
    case End(t, ok) => Enabled(s, Ends(t, ok))
    case Settle(t, order) => SettlesAndWakes(s, t, order)
  }

  ghost function AfterTurn(s: State, turn: Turn): State
    requires Possible(s, turn)
  {
    match turn
    case End(t, ok) => After(s, Ends(t, ok))
    case Settle(t, order) => Woke(s, t, order)
  }

  ghost predicate Quiet(s: State, turns: seq<Turn>)
    decreases |turns|
  {
    turns == [] || (Possible(s, turns[0]) && Quiet(AfterTurn(s, turns[0]), turns[1..]))
  }

  ghost function AfterTurns(s: State, turns: seq<Turn>): State
    requires Quiet(s, turns)
    decreases |turns|
  {
    if turns == [] then s else AfterTurns(AfterTurn(s, turns[0]), turns[1..])
  }

  function Work(runs: seq<Run>): nat {
    if runs == [] then 0
    else (match runs[0].phase case Running => 2 case Cleared(_) => 1 case Settled(_) => 0) + Work(runs[1..])
  }

  lemma {:induction false} WorkUpdate(runs: seq<Run>, t: nat, run: Run)
    requires t < |runs|
    ensures Work(runs[t := run]) + Work([runs[t]]) == Work(runs) + Work([run])
  {
    if t > 0 {
      assert runs[t := run][1..] == runs[1..][t - 1 := run];
      WorkUpdate(runs[1..], t - 1, run);
    } else {
      assert runs[t := run][1..] == runs[1..];
      assert [run][1..] == [] && [runs[0]][1..] == [];
    }
  }

  lemma {:induction false} WorkAppend(runs: seq<Run>, run: Run)
    ensures Work(runs + [run]) == Work(runs) + Work([run])
  {
    if runs == [] {
      assert [] + [run] == [run];
    } else {
      assert (runs + [run])[1..] == runs[1..] + [run];
      WorkAppend(runs[1..], run);
    }
  }

  lemma {:induction false} WorkOne(run: Run)
    ensures Work([run]) == match run.phase case Running => 2 case Cleared(_) => 1 case Settled(_) => 0
  {
  }

  lemma {:induction false} WorkAfter(m: seq<Run>, e: seq<Run>)
    requires RunsAfter(m, e)
    ensures Work(e) == Work(m) + 2 * (|e| - |m|)
  {
    if e != m {
      assert e == m + [e[|m|]];
      WorkAppend(m, e[|m|]);
      WorkOne(e[|m|]);
    }
  }

  /** The turns that can still come. */
  ghost function Rank(s: State): nat { 3 * |Pairs(s)| + Work(s.runs) }

  lemma {:induction false} TurnProgress(s: State, turn: Turn)
    requires Sound(s) && Rested(s) && Possible(s, turn)
    ensures var e := AfterTurn(s, turn);
      && Sound(e) && Rested(e) && Rank(e) < Rank(s)
      && |e.runs| + |Pairs(e)| <= |s.runs| + |Pairs(s)|
  {
    match turn
    case End(t, ok) =>
      var e := After(s, Ends(t, ok));
      EndsSound(s, t, ok);
      forall i: nat | i < |e.calls|
        ensures !Woken(e, e.calls[i])
      {
        assert !Woken(s, s.calls[i]);
      }
      assert Pairs(e) == Pairs(s);
      WorkUpdate(s.runs, t, e.runs[t]);
      WorkOne(s.runs[t]);
      WorkOne(e.runs[t]);
    case Settle(t, order) =>
      var m, e := After(s, Settles(t)), Woke(s, t, order);
      WakingIsPaidFor(s, t, order);
      WorkUpdate(s.runs, t, m.runs[t]);
      WorkOne(s.runs[t]);
      WorkOne(m.runs[t]);
      WorkAfter(m.runs, e.runs);
  }

  /** With no new arrivals there are at most as many further runs as there are different
      pairs of a run and a key that somebody waits with, and only finitely many turns,
      whatever the handler answers. */
  lemma {:induction false} FurtherRuns(s: State, turns: seq<Turn>)
    requires Sound(s) && Rested(s) && Quiet(s, turns)
    ensures var e := AfterTurns(s, turns);
      && Sound(e) && Rested(e)
      && |e.runs| + |Pairs(e)| <= |s.runs| + |Pairs(s)|
      && |turns| + Rank(e) <= Rank(s)
    decreases |turns|
  {
    if turns != [] {
      TurnProgress(s, turns[0]);
      FurtherRuns(AfterTurn(s, turns[0]), turns[1..]);
    }
  }

  /** The callers waiting for run `t`, from the `i`-th call on. */
  function WaitersFrom(calls: seq<Call>, t: nat, i: nat): seq<nat>
    requires i <= |calls|
    decreases |calls| - i
  {
    if i == |calls| then []
    else if calls[i].on == Waiting(t) then [i] + WaitersFrom(calls, t, i + 1)
    else WaitersFrom(calls, t, i + 1)
  }

  lemma {:induction false} WaitersFrame(a: seq<Call>, b: seq<Call>, t: nat, i: nat)
    requires |a| == |b| && i <= |a| && forall j :: i <= j < |a| ==> a[j] == b[j]
    ensures WaitersFrom(a, t, i) == WaitersFrom(b, t, i)
    decreases |a| - i
  {
    if i < |a| {
      WaitersFrame(a, b, t, i + 1);
    }
  }

  lemma {:induction false} WaitersListed(calls: seq<Call>, t: nat, i: nat)
    requires i <= |calls|
    ensures forall j :: i <= j < |calls| && calls[j].on == Waiting(t) ==> j in WaitersFrom(calls, t, i)
    decreases |calls| - i
  {
    if i < |calls| {
      WaitersListed(calls, t, i + 1);
    }
  }

  lemma {:induction false} WaitersWake(s: State, t: nat, i: nat)
    requires Sound(s) && t < |s.runs| && s.runs[t].phase.Settled? && i <= |s.calls|
    ensures Wakeable(s, WaitersFrom(s.calls, t, i))
    decreases |s.calls| - i
  {
    if i < |s.calls| {
      if s.calls[i].on == Waiting(t) {
        var e := After(s, Wakes(i));
        var rest := WaitersFrom(s.calls, t, i + 1);
        StepSound(s, Wakes(i));
        WaitersWake(e, t, i + 1);
        WaitersFrame(s.calls, e.calls, t, i + 1);
        assert ([i] + rest)[1..] == rest;
      } else {
        WaitersWake(s, t, i + 1);
      }
    }
  }

  /** Waking the callers from the `c`-th on that wait for run `t` leads to `goal`. */
  ghost predicate WakesTo(s: State, t: nat, c: nat, goal: State) {
    && Sound(s) && t < |s.runs| && s.runs[t].phase.Settled? && c <= |s.calls|
    && Wakeable(s, WaitersFrom(s.calls, t, c)) && Drained(s, WaitersFrom(s.calls, t, c)) == goal
  }

  /** Waking the next caller that waits for run `t`. */
  lemma {:induction false} WakeNext(s: State, t: nat, c: nat)
    requires Sound(s) && c < |s.calls| && s.calls[c].on == Waiting(t) && t < |s.runs| && s.runs[t].phase.Settled?
    ensures var m := After(s, Wakes(c));
      && Sound(m) && t < |m.runs| && m.runs[t] == s.runs[t]
      && Wakeable(s, WaitersFrom(s.calls, t, c)) && Wakeable(m, WaitersFrom(m.calls, t, c + 1))
      && Drained(m, WaitersFrom(m.calls, t, c + 1)) == Drained(s, WaitersFrom(s.calls, t, c))
  {
    var m, rest := After(s, Wakes(c)), WaitersFrom(s.calls, t, c + 1);
    StepSound(s, Wakes(c));
    WaitersWake(s, t, c);
    WaitersFrame(s.calls, m.calls, t, c + 1);
    assert ([c] + rest)[1..] == rest;
  }

  /** Settled runs stay settled, and calls are neither lost nor added. */
  lemma {:induction false} SettledStay(s: State, t: nat, order: seq<nat>)
    requires Sound(s) && Rested(s) && SettlesAndWakes(s, t, order)
    ensures var e := Woke(s, t, order);
      && |e.calls| == |s.calls| && |s.runs| <= |e.runs|
      && forall i :: 0 <= i < |s.runs| && s.runs[i].phase.Settled? ==> e.runs[i].phase.Settled?
  {
    var m, e := After(s, Settles(t)), Woke(s, t, order);
    SettlesSound(s, t);
    Drains(m, order);
    forall i | 0 <= i < |s.runs|
      ensures i < |e.runs| && e.runs[i] == m.runs[i]
    {
      StillSettled(m, e, i);
    }
  }

  lemma {:induction false} AllSettledFinished(s: State)
    requires Sound(s) && Rested(s) && forall t :: 0 <= t < |s.runs| ==> s.runs[t].phase.Settled?
    ensures forall i :: 0 <= i < |s.calls| ==> s.calls[i].on.Finished?
  {
    forall i | 0 <= i < |s.calls|
      ensures s.calls[i].on.Finished?
    {
      assert CallFits(s.runs, s.calls[i]) && !Woken(s, s.calls[i]);
    }
  }

  /** As long as some caller is not finished, another turn can come; so when no more comes,
      everybody is. */
  lemma {:induction false} NobodyHangs(s: State)
    requires Sound(s) && Rested(s)
    requires forall turn :: !Possible(s, turn)
    ensures forall i :: 0 <= i < |s.calls| ==> s.calls[i].on.Finished?
  {
    forall t: nat | t < |s.runs|
      ensures s.runs[t].phase.Settled?
    {
      assert !Possible(s, End(t, true));
      if s.runs[t].phase.Cleared? {
        var m := After(s, Settles(t));
        SettlesSound(s, t);
        WaitersWake(m, t, 0);
        WaitersListed(m.calls, t, 0);
        assert Possible(s, Settle(t, WaitersFrom(m.calls, t, 0)));
      }
    }
    AllSettledFinished(s);
  }

  /** The keys somebody waits with. */
  ghost function WaitingKeys(s: State): set<Key> {
    set i | 0 <= i < |s.calls| && s.calls[i].on.Waiting? :: s.calls[i].key
  }

  // ---------- one key may run twice ----------

  const X := Run("x", Cleared(true))
  const C := Run("c", Cleared(true))

  /** Two runs have ended but not settled; "a" waits for both, "b" for the second. */
  const CROSSED := State(Some("c"), None, [X, C],
    [Call("x", OnRun(0)), Call("a", Waiting(0)), Call("c", OnRun(1)), Call("b", Waiting(1)), Call("a", Waiting(1))])

  lemma {:induction false} RunCons(s: State, step: Step, rest: seq<Step>)
    requires Enabled(s, step) && Runnable(After(s, step), rest)
    ensures Runnable(s, [step] + rest) && Finally(s, [step] + rest) == Finally(After(s, step), rest)
  {
    assert ([step] + rest)[1..] == rest;
  }

  lemma {:induction false} CrossedIsReachable() returns (steps: seq<Step>)
    ensures Runnable(INITIAL, steps) && Finally(INITIAL, steps) == CROSSED && Rested(CROSSED)
  {
    var s1 := State(Some("x"), Some(0), [Run("x", Running)], [Call("x", OnRun(0))]);
    assert After(INITIAL, Arrive("x")) == s1;
    var s2 := s1.(calls := [Call("x", OnRun(0)), Call("a", Waiting(0))]);
    assert After(s1, Arrive("a")) == s2;
    var s3 := s2.(inFlight := None, runs := [X]);
    assert After(s2, Ends(0, true)) == s3;
    var s4 := State(Some("c"), Some(1), [X, Run("c", Running)], s3.calls + [Call("c", OnRun(1))]);
    assert After(s3, Arrive("c")) == s4;
    var s5 := s4.(calls := s4.calls + [Call("b", Waiting(1))]);
    assert After(s4, Arrive("b")) == s5;
    var s6 := s5.(calls := s5.calls + [Call("a", Waiting(1))]);
    assert After(s5, Arrive("a")) == s6;
    assert After(s6, Ends(1, true)) == CROSSED;
    RunCons(s6, Ends(1, true), []);
    RunCons(s5, Arrive("a"), [Ends(1, true)] + []);
    RunCons(s4, Arrive("b"), [Arrive("a")] + ([Ends(1, true)] + []));
    var tail := [Arrive("b")] + ([Arrive("a")] + ([Ends(1, true)] + []));
    RunCons(s3, Arrive("c"), tail);
    RunCons(s2, Ends(0, true), [Arrive("c")] + tail);
    RunCons(s1, Arrive("a"), [Ends(0, true)] + ([Arrive("c")] + tail));
    RunCons(INITIAL, Arrive("x"), [Arrive("a")] + ([Ends(0, true)] + ([Arrive("c")] + tail)));
    steps := [Arrive("x")] + ([Arrive("a")] + ([Ends(0, true)] + ([Arrive("c")] + tail)));
  }

  lemma {:induction false} QuietCons(s: State, turn: Turn, rest: seq<Turn>)
    requires Possible(s, turn) && Quiet(AfterTurn(s, turn), rest)
    ensures Quiet(s, [turn] + rest) && AfterTurns(s, [turn] + rest) == AfterTurns(AfterTurn(s, turn), rest)
  {
    assert ([turn] + rest)[1..] == rest;
  }

  lemma {:induction false} WakeOnly(s: State, c: nat)
    requires Enabled(s, Wakes(c))
    ensures Wakeable(s, [c]) && Drained(s, [c]) == After(s, Wakes(c))
  {
    assert [c][1..] == [];
  }

  lemma {:induction false} WakeBoth(s: State, c: nat, d: nat)
    requires Enabled(s, Wakes(c)) && Enabled(After(s, Wakes(c)), Wakes(d))
    ensures Wakeable(s, [c, d]) && Drained(s, [c, d]) == After(After(s, Wakes(c)), Wakes(d))
  {
    WakeOnly(After(s, Wakes(c)), d);
    assert [c, d][1..] == [d];
  }

  const XS := Run("x", Settled(true))
  const CS := Run("c", Settled(true))

  const X_DONE := Call("x", Finished(true))
  const A_DONE := Run("a", Cleared(true))

  /** The first run settles, and "a" starts. */
  lemma {:induction false} FirstSettles() returns (e: State)
    ensures Possible(CROSSED, Settle(0, [1])) && e == AfterTurn(CROSSED, Settle(0, [1]))
    ensures e == State(Some("a"), Some(2), [XS, C, Run("a", Running)],
      [X_DONE, Call("a", OnRun(2)), Call("c", OnRun(1)), Call("b", Waiting(1)), Call("a", Waiting(1))])
  {
    var m := CROSSED.(runs := [XS, C],
      calls := [X_DONE, Call("a", Waiting(0)), Call("c", OnRun(1)), Call("b", Waiting(1)), Call("a", Waiting(1))]);
    assert After(CROSSED, Settles(0)) == m;
    WakeOnly(m, 1);
    e := State(Some("a"), Some(2), [XS, C, Run("a", Running)],
      [X_DONE, Call("a", OnRun(2)), Call("c", OnRun(1)), Call("b", Waiting(1)), Call("a", Waiting(1))]);
    assert After(m, Wakes(1)) == e;
    assert 1 in [1 as nat];
  }

  /** "b" settles, and "a" starts again. */
  lemma {:induction false} ThirdSettles(s: State)
    requires s == State(Some("b"), None, [XS, CS, A_DONE, Run("b", Cleared(true))],
      [X_DONE, Call("a", OnRun(2)), Call("c", Finished(true)), Call("b", OnRun(3)), Call("a", Waiting(3))])
    ensures Possible(s, Settle(3, [4])) && |AfterTurn(s, Settle(3, [4])).runs| == 5
  {
    var m := s.(runs := [XS, CS, A_DONE, Run("b", Settled(true))],
      calls := [X_DONE, Call("a", OnRun(2)), Call("c", Finished(true)), Call("b", Finished(true)), Call("a", Waiting(3))]);
    assert After(s, Settles(3)) == m;
    WakeOnly(m, 4);
    assert 4 in [4 as nat];
  }

  lemma {:induction false} QuietTwo(s: State, a: Turn, b: Turn, rest: seq<Turn>)
    requires Possible(s, a) && Possible(AfterTurn(s, a), b) && Quiet(AfterTurn(AfterTurn(s, a), b), rest)
    ensures Quiet(s, [a, b] + rest) && AfterTurns(s, [a, b] + rest) == AfterTurns(AfterTurn(AfterTurn(s, a), b), rest)
  {
    QuietCons(AfterTurn(s, a), b, rest);
    QuietCons(s, a, [b] + rest);
    assert [a] + ([b] + rest) == [a, b] + rest;
  }

  lemma {:induction false} CrossedKeys()
    ensures WaitingKeys(CROSSED) == {"a", "b"}
  {
    assert CROSSED.calls[1].key == "a" && CROSSED.calls[3].key == "b" && CROSSED.calls[4].key == "a";
  }

  lemma {:induction false} RunEnds(s: State, t: nat)
    requires t < |s.runs| && s.runs[t].phase == Running && s.inFlight == Some(t)
    ensures Possible(s, End(t, true))
    ensures AfterTurn(s, End(t, true)) == s.(inFlight := None, runs := s.runs[t := Run(s.runs[t].key, Cleared(true))])
  {
  }

  /** From there the two waiting keys take three runs: "a", "b", and "a" again. */
  lemma {:induction false} TwoKeysThreeRuns() returns (turns: seq<Turn>)
    ensures WaitingKeys(CROSSED) == {"a", "b"}
    ensures Quiet(CROSSED, turns) && |AfterTurns(CROSSED, turns).runs| == |CROSSED.runs| + 3
  {
    CrossedKeys();
    var s1 := FirstSettles();
    RunEnds(s1, 2);
    var s2 := AfterTurn(s1, End(2, true));
    assert s2 == s1.(inFlight := None, runs := [XS, C, A_DONE]);
    var s3 := SecondSettles(s2);
    RunEnds(s3, 3);
    var s4 := AfterTurn(s3, End(3, true));
    assert s4 == s3.(inFlight := None, runs := [XS, CS, A_DONE, Run("b", Cleared(true))]);
    ThirdSettles(s4);
    QuietCons(s4, Settle(3, [4]), []);
    turns := [Settle(3, [4])] + [];
    QuietTwo(s2, Settle(1, [3, 4]), End(3, true), turns);
    turns := [Settle(1, [3, 4]), End(3, true)] + turns;
    QuietTwo(CROSSED, Settle(0, [1]), End(2, true), turns);
    turns := [Settle(0, [1]), End(2, true)] + turns;
  }

  lemma {:induction false} SecondSettles(s: State) returns (e: State)
    requires s == State(Some("a"), None, [XS, C, A_DONE],
      [X_DONE, Call("a", OnRun(2)), Call("c", OnRun(1)), Call("b", Waiting(1)), Call("a", Waiting(1))])
    ensures Possible(s, Settle(1, [3, 4])) && e == AfterTurn(s, Settle(1, [3, 4]))
    ensures e == State(Some("b"), Some(3), [XS, CS, A_DONE, Run("b", Running)],
      [X_DONE, Call("a", OnRun(2)), Call("c", Finished(true)), Call("b", OnRun(3)), Call("a", Waiting(3))])
  {
    var m := s.(runs := [XS, CS, A_DONE],
      calls := [X_DONE, Call("a", OnRun(2)), Call("c", Finished(true)), Call("b", Waiting(1)), Call("a", Waiting(1))]);
    assert After(s, Settles(1)) == m;
    WakeBoth(m, 3, 4);
    e := State(Some("b"), Some(3), [XS, CS, A_DONE, Run("b", Running)],
      [X_DONE, Call("a", OnRun(2)), Call("c", Finished(true)), Call("b", OnRun(3)), Call("a", Waiting(3))]);
    assert After(After(m, Wakes(3)), Wakes(4)) == e;
    assert 3 in [3 as nat, 4] && 4 in [3 as nat, 4];
  }

  // ---------- what a caller learns ----------

  /** The call hangs on run `t`, or has finished as the run did. */
  predicate LearnsOf(s: State, i: nat, t: nat) {
    && i < |s.calls| && t < |s.runs|
    && (s.calls[i].on == OnRun(t) || (s.runs[t].phase.Settled? && s.calls[i].on == Finished(s.runs[t].phase.ok)))
  }

  /** The run has ended as `ok` says, or not at all. */
  predicate EndsAs(s: State, t: nat, ok: bool) {
    t < |s.runs| && match s.runs[t].phase case Running => true case Cleared(o) => o == ok case Settled(o) => o == ok
  }

  lemma {:induction false} StepLearns(s: State, step: Step, i: nat, t: nat)
    requires Enabled(s, step) && LearnsOf(s, i, t)
    ensures LearnsOf(After(s, step), i, t)
    ensures forall ok :: s.runs[t].phase != Running && EndsAs(s, t, ok) ==> EndsAs(After(s, step), t, ok) && After(s, step).runs[t].phase != Running
    ensures step == Ends(t, true) ==> EndsAs(After(s, step), t, true) && After(s, step).runs[t].phase != Running
    ensures step == Ends(t, false) ==> EndsAs(After(s, step), t, false) && After(s, step).runs[t].phase != Running
  {
  }

  /** A caller whose promise is a run's is told how that run ended, in every interleaving. */
  lemma {:induction false} CallerLearnsOutcome(s: State, steps: seq<Step>, i: nat, t: nat)
    requires Runnable(s, steps) && LearnsOf(s, i, t)
    ensures LearnsOf(Finally(s, steps), i, t)
    ensures forall ok :: s.runs[t].phase != Running && EndsAs(s, t, ok) ==> EndsAs(Finally(s, steps), t, ok)
    decreases |steps|
  {
    if steps != [] {
      StepLearns(s, steps[0], i, t);
      CallerLearnsOutcome(After(s, steps[0]), steps[1..], i, t);
    }
  }

  /** So a caller of a run that the handler failed is told of the failure, and of one that it
      did not, of none. */
  lemma {:induction false} OutcomeArrives(s: State, ok: bool, rest: seq<Step>, i: nat, t: nat)
    requires Enabled(s, Ends(t, ok)) && Runnable(After(s, Ends(t, ok)), rest) && LearnsOf(s, i, t)
    ensures var e := Finally(After(s, Ends(t, ok)), rest);
      LearnsOf(e, i, t) && (e.calls[i].on.Finished? ==> e.calls[i].on == Finished(ok))
  {
    StepLearns(s, Ends(t, ok), i, t);
    CallerLearnsOutcome(After(s, Ends(t, ok)), rest, i, t);
  }
}
