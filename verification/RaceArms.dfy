/** Racing the two arms (crates/agent/src/hybrid.rs:240-295): the data arm is always waited
    for; the document arm gets a budget once the data arm is done. The executor is modelled
    by its polls and by a clock that only moves while nothing polled would be ready. */
module RaceArms {
  import opened Fusion
  import opened FusionExact

  const BONUS := 8000
  const PRIMARY := 45000

  type Moment = Option<nat>

  /** When each future would be ready, if ever, and with what; `primary` is `kb_is_primary`. */
  datatype Arms = Arms(dataAt: Moment, data: Result<AskResult>, kbAt: Moment, kb: Option<Answer>, primary: bool)

  predicate Ready(at: Moment, now: nat) { at.Some? && at.value <= now }

  function Budget(arms: Arms): nat {
    if arms.data.Ok? && DataHasSubstance(arms.data.value) && !arms.primary then BONUS else PRIMARY
  }

  /** Both arms polled; only the document arm, with a deadline; done. */
  datatype Phase = Racing | Waiting(deadline: nat) | Returned

  datatype State = State(now: nat, phase: Phase, dataOut: Option<Result<AskResult>>, kbDone: Option<Option<Answer>>,
                         answer: Option<Answer>, kbConsumed: bool)

  const START := State(0, Racing, None, None, None, false)

  datatype Step = PollData | PollKb | PollTimed | Tick

  /** `select!` polls in any order; the document leg only while `kb_done` is none. Time moves
      on when no enabled poll would find its future, or its deadline, ready. */
  predicate Enabled(arms: Arms, s: State, step: Step) {
    match step
    case PollData => s.phase == Racing
    case PollKb => s.phase == Racing && s.kbDone == None
    case PollTimed => s.phase.Waiting?
    case Tick =>
      match s.phase
      case Racing => !Ready(arms.dataAt, s.now) && (s.kbDone == None ==> !Ready(arms.kbAt, s.now))
      case Waiting(deadline) => !Ready(arms.kbAt, s.now) && s.now < deadline
      case Returned => false
  }

  function After(arms: Arms, s: State, step: Step): State
    requires Enabled(arms, s, step)
  {
    match step
    case PollData =>
      if !Ready(arms.dataAt, s.now) then s
      else if s.kbDone.Some? then s.(dataOut := Some(arms.data), phase := Returned, answer := s.kbDone.value)
      else s.(dataOut := Some(arms.data), phase := Waiting(s.now + Budget(arms)))
    case PollKb =>
      if Ready(arms.kbAt, s.now) then s.(kbDone := Some(arms.kb), kbConsumed := true) else s
    case PollTimed =>
      if Ready(arms.kbAt, s.now) then s.(phase := Returned, answer := arms.kb, kbConsumed := true)
      else if s.phase.deadline <= s.now then s.(phase := Returned, answer := None)
      else s
    case Tick => s.(now := s.now + 1)
  }

  /** `race_arms` as the executor drives it. */
  class Race {
    const arms: Arms
    var now: nat
    var phase: Phase
    var dataOut: Option<Result<AskResult>>
    var kbDone: Option<Option<Answer>>
    var answer: Option<Answer>
    var kbConsumed: bool

    function View(): State
      reads this
    {
      State(now, phase, dataOut, kbDone, answer, kbConsumed)
    }

    constructor (arms: Arms)
      ensures this.arms == arms && View() == START
    {
      this.arms := arms;
      now, phase, dataOut, kbDone, answer, kbConsumed := 0, Racing, None, None, None, false;
    }

    /** The data leg of the loop: it breaks out, and what follows runs up to the next wait. */
    method PollDataArm()
      requires phase == Racing
      modifies this
      ensures View() == After(arms, old(View()), PollData)
    {
      if !Ready(arms.dataAt, now) { return; }
      dataOut := Some(arms.data);
      if kbDone.Some? {
        answer := kbDone.value;
        phase := Returned;
        return;
      }
      var budget := if arms.data.Ok? && DataHasSubstance(arms.data.value) && !arms.primary then BONUS else PRIMARY;
      phase := Waiting(now + budget);
    }

    /** The document leg, guarded by `kb_done.is_none()`. */
    method PollKbArm()
      requires phase == Racing && kbDone == None
      modifies this
      ensures View() == After(arms, old(View()), PollKb)
    {
      if Ready(arms.kbAt, now) {
        kbDone := Some(arms.kb);
        kbConsumed := true;
      }
    }

    /** `timeout(budget, kb)`: the future first, then the deadline. */
    method PollTimeout()
      requires phase.Waiting?
      modifies this
      ensures View() == After(arms, old(View()), PollTimed)
    {
      if Ready(arms.kbAt, now) {
        answer, kbConsumed, phase := arms.kb, true, Returned;
      } else if phase.deadline <= now {
        answer, phase := None, Returned;
      }
    }

    /** The whole race, whichever leg `select!` polls first each time: the data arm's result
        unchanged, and time and document answer as the arms alone determine them. */
    method Run(dataFirst: nat -> bool) returns (data: Result<AskResult>)
      requires View() == START && arms.dataAt.Some?
      modifies this
      ensures data == arms.data && now == FinishTime(arms) && answer == FinalAnswer(arms)
      ensures arms.dataAt.value <= now <= arms.dataAt.value + Budget(arms)
      ensures InPatience(arms, now, answer)
    {
      ghost var end := arms.dataAt.value + Budget(arms);
      var turn: nat := 0;
      while phase != Returned
        invariant Sound(arms, View())
        decreases Rank(View(), end)
      {
        StepRank(arms, View());
        if phase == Racing {
          PollBoth(dataFirst(turn));
        } else {
          StepSound(arms, View(), PollTimed);
          PollTimeout();
        }
        if Enabled(arms, View(), Tick) {
          StepSound(arms, View(), Tick);
          now := now + 1;
        }
        turn := turn + 1;
        if phase != Returned {
          StepRank(arms, View());
        }
      }
      PatienceIs(arms);
      data := dataOut.value;
    }

    /** Both legs of `select!`, the second only if the first did not end the loop. */
    method PollBoth(dataFirst: bool)
      requires Sound(arms, View()) && phase == Racing
      modifies this
      ensures Sound(arms, View()) && now == old(now)
      ensures phase == Racing ==> Enabled(arms, View(), Tick)
    {
      if dataFirst {
        StepSound(arms, View(), PollData);
        PollDataArm();
        if phase == Racing && kbDone == None {
          StepSound(arms, View(), PollKb);
          PollKbArm();
        }
      } else {
        if kbDone == None {
          StepSound(arms, View(), PollKb);
          PollKbArm();
        }
        StepSound(arms, View(), PollData);
        PollDataArm();
      }
    }
  }

  // ---------- every interleaving ----------

  /** How long documents are waited for once the data arm is done: eight seconds if it has
      answered a question that is not mainly about documents, else forty-five. */
  ghost function Patience(arms: Arms): nat {
    if arms.data.Ok? && Answers(arms.data.value) && !arms.primary then 8000 else 45000
  }

  /** The answer is the documents' exactly if they are ready by then; and nobody waits longer
      than for the data arm, for the documents, or for that time. */
  ghost predicate InPatience(arms: Arms, now: nat, answer: Option<Answer>)
    requires arms.dataAt.Some?
  {
    var last := arms.dataAt.value + Patience(arms);
    if arms.kbAt.None? || arms.kbAt.value > last then answer == None && now == last
    else answer == arms.kb && now == if arms.kbAt.value <= arms.dataAt.value then arms.dataAt.value else arms.kbAt.value
  }

  predicate Runnable(arms: Arms, s: State, steps: seq<Step>)
    decreases |steps|
  {
    steps == [] || (Enabled(arms, s, steps[0]) && Runnable(arms, After(arms, s, steps[0]), steps[1..]))
  }

  function Finally(arms: Arms, s: State, steps: seq<Step>): State
    requires Runnable(arms, s, steps)
    decreases |steps|
  {
    if steps == [] then s else Finally(arms, After(arms, s, steps[0]), steps[1..])
  }

  predicate Before(at: Moment, now: nat) { at.Some? ==> now <= at.value }

  /** When the race ends, if it does: as soon as the data arm is done if the documents are
      by then, else when they are, but no later than the budget after the data arm. */
  function FinishTime(arms: Arms): nat
    requires arms.dataAt.Some?
  {
    if Ready(arms.kbAt, arms.dataAt.value) then arms.dataAt.value
    else if Ready(arms.kbAt, arms.dataAt.value + Budget(arms)) then arms.kbAt.value
    else arms.dataAt.value + Budget(arms)
  }

  function FinalAnswer(arms: Arms): Option<Answer>
    requires arms.dataAt.Some?
  {
    if Ready(arms.kbAt, arms.dataAt.value + Budget(arms)) then arms.kb else None
  }

  lemma {:induction false} PatienceIs(arms: Arms)
    ensures Patience(arms) == Budget(arms)
  {
    if arms.data.Ok? {
      AnswersIs(arms.data.value);
    }
  }

  /** What every poll keeps. */
  predicate Sound(arms: Arms, s: State) {
    && (s.kbDone.Some? ==> s.kbDone.value == arms.kb && Ready(arms.kbAt, s.now))
    && match s.phase
       case Racing => s.dataOut == None && Before(arms.dataAt, s.now) && s.kbConsumed == s.kbDone.Some?
                      && (s.kbDone == None ==> Before(arms.kbAt, s.now))
       case Waiting(deadline) =>
         && arms.dataAt.Some? && s.dataOut == Some(arms.data) && s.kbDone == None && !s.kbConsumed
         && deadline == arms.dataAt.value + Budget(arms) && arms.dataAt.value <= s.now <= deadline
         && (Before(arms.kbAt, s.now) || (s.now == arms.dataAt.value && Ready(arms.kbAt, s.now)))
       case Returned =>
         && arms.dataAt.Some? && s.dataOut == Some(arms.data)
         && s.now == FinishTime(arms) && s.answer == FinalAnswer(arms)
  }

  lemma {:induction false} StepSound(arms: Arms, s: State, step: Step)
    requires Sound(arms, s) && Enabled(arms, s, step)
    ensures Sound(arms, After(arms, s, step))
  {
  }

  lemma {:induction false} AlwaysSound(arms: Arms, s: State, steps: seq<Step>)
    requires Sound(arms, s) && Runnable(arms, s, steps)
    ensures Sound(arms, Finally(arms, s, steps))
    decreases |steps|
  {
    if steps != [] {
      StepSound(arms, s, steps[0]);
      AlwaysSound(arms, After(arms, s, steps[0]), steps[1..]);
    }
  }

  /** In every interleaving that returns: the data arm's result is returned as it was, and
      the time and the document answer are determined by the arms alone. */
  lemma {:induction false} RaceOutcome(arms: Arms, steps: seq<Step>)
    requires Runnable(arms, START, steps) && Finally(arms, START, steps).phase == Returned
    ensures var s := Finally(arms, START, steps);
      && arms.dataAt.Some? && s.dataOut == Some(arms.data)
      && s.now == FinishTime(arms) && s.answer == FinalAnswer(arms)
      && InPatience(arms, s.now, s.answer)
  {
    AlwaysSound(arms, START, steps);
    PatienceIs(arms);
  }

  /** A document arm that has answered is never polled again. */
  lemma {:induction false} NeverPolledAgain(arms: Arms, steps: seq<Step>, step: Step)
    requires Runnable(arms, START, steps) && Enabled(arms, Finally(arms, START, steps), step)
    requires step == PollKb || step == PollTimed
    ensures !Finally(arms, START, steps).kbConsumed
  {
    AlwaysSound(arms, START, steps);
  }

  /** In every interleaving that returns, the wait after the data arm is at most the budget,
      and none for documents that are there by then; the short budget is for a data answer
      with substance to a question not mainly about documents. */
  lemma {:induction false} WaitIsBounded(arms: Arms, steps: seq<Step>)
    requires Runnable(arms, START, steps) && Finally(arms, START, steps).phase == Returned
    ensures var s := Finally(arms, START, steps);
      && arms.dataAt.Some? && arms.dataAt.value <= s.now
      && (arms.data.Ok? && Answers(arms.data.value) && !arms.primary ==> s.now <= arms.dataAt.value + BONUS)
      && s.now <= arms.dataAt.value + PRIMARY
      && (Ready(arms.kbAt, arms.dataAt.value) ==> s.now == arms.dataAt.value)
      && (s.answer != arms.kb ==> s.now == arms.dataAt.value + Patience(arms))
      && (arms.data.Err? || !Answers(arms.data.value) || arms.primary ==>
            s.answer == if Ready(arms.kbAt, arms.dataAt.value + PRIMARY) then arms.kb else None)
  {
    RaceOutcome(arms, steps);
    PatienceIs(arms);
  }

  // ---------- it does return ----------

  /** Ticks and useful polls still to come before `end`. */
  function Rank(s: State, end: nat): int {
    match s.phase
    case Racing => 3 * (end - s.now) + (if s.kbDone == None then 3 else 2)
    case Waiting(_) => 3 * (end - s.now) + 1
    case Returned => 0
  }

  /** A poll that changes nothing aside, every step brings the return nearer. */
  lemma {:induction false} StepProgress(arms: Arms, s: State, step: Step)
    requires arms.dataAt.Some? && Sound(arms, s) && Enabled(arms, s, step)
    ensures var end := arms.dataAt.value + Budget(arms);
      && Rank(s, end) >= 0
      && (After(arms, s, step) == s || Rank(After(arms, s, step), end) < Rank(s, end))
  {
  }

  /** Steps that change something. */
  function Useful(arms: Arms, s: State, steps: seq<Step>): nat
    requires Runnable(arms, s, steps)
    decreases |steps|
  {
    if steps == [] then 0
    else (if After(arms, s, steps[0]) == s then 0 else 1) + Useful(arms, After(arms, s, steps[0]), steps[1..])
  }

  lemma {:induction false} UsefulBounded(arms: Arms, s: State, steps: seq<Step>)
    requires arms.dataAt.Some? && Sound(arms, s) && Runnable(arms, s, steps)
    ensures Useful(arms, s, steps) <= Rank(s, arms.dataAt.value + Budget(arms))
    decreases |steps|
  {
    if steps != [] {
      StepProgress(arms, s, steps[0]);
      StepSound(arms, s, steps[0]);
      UsefulBounded(arms, After(arms, s, steps[0]), steps[1..]);
    } else {
      StepRank(arms, s);
    }
  }

  lemma {:induction false} StepRank(arms: Arms, s: State)
    requires arms.dataAt.Some? && Sound(arms, s)
    ensures Rank(s, arms.dataAt.value + Budget(arms)) >= 0
  {
  }

  /** No interleaving gets stuck: until the race returns, some step changes something. */
  lemma {:induction false} NeverStuck(arms: Arms, s: State) returns (step: Step)
    requires Sound(arms, s) && s.phase != Returned
    ensures Enabled(arms, s, step) && After(arms, s, step) != s
  {
    match s.phase
    case Racing =>
      step := if Ready(arms.dataAt, s.now) then PollData
              else if s.kbDone == None && Ready(arms.kbAt, s.now) then PollKb else Tick;
    case Waiting(deadline) =>
      step := if Ready(arms.kbAt, s.now) || deadline <= s.now then PollTimed else Tick;
  }

  // ---------- with the fusion ----------

  /** The arms of a question; the document arm of a destructive one gives nothing. */
  function ArmsOf(w: Wording, c: Contract, dataAt: Moment, data: Result<AskResult>, kbAt: Moment, reply: Option<Answer>): Arms {
    Arms(dataAt, data, kbAt, KbArm(w, reply), IsPrimary(Decide(w, c)))
  }

  /** `dual` as it runs: whatever the interleaving, its answer is the fusion's, with the
      document arm in time exactly if it answers within its budget. */
  lemma {:induction false} DualIsDetermined(w: Wording, c: Contract, dataAt: Moment, data: Result<AskResult>, kbAt: Moment,
                                           reply: Option<Answer>, steps: seq<Step>, notFound: NotFound, summary: Option<string>)
    requires var arms := ArmsOf(w, c, dataAt, data, kbAt, reply);
      Runnable(arms, START, steps) && Finally(arms, START, steps).phase == Returned
    ensures var arms := ArmsOf(w, c, dataAt, data, kbAt, reply);
      var s := Finally(arms, START, steps);
      && dataAt.Some? && s.dataOut.Some?
      && var inTime := Ready(kbAt, dataAt.value + Budget(arms));
         var o := DualOutcome(w, c, s.dataOut.value, s.answer, notFound, summary);
         forall elapsed: nat ::
           Dual(w, c, data, reply, inTime, notFound, summary, elapsed)
             == (if o.Err? then Err(o.message) else Ok(Fuse(o.value, w.question, elapsed)))
  {
    RaceOutcome(ArmsOf(w, c, dataAt, data, kbAt, reply), steps);
    PatienceIs(ArmsOf(w, c, dataAt, data, kbAt, reply));
  }
}
