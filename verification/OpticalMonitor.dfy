// The attempt and rearm state machine of src/app/optical_monitor.c.
//
// The struct is mutated in place by the C functions, so `OpticalMonitor` is a
// class; every method is proved against a function on the value `State`, and
// the theorems about whole histories are stated on those functions.

module OpticalMonitors {

  const STABLE_OBSERVATIONS: nat := 4
  const REARM_OBSERVATIONS: nat := 10
  const TRANSIENT_RETRY_LIMIT: nat := 2

  datatype Failure = Transient | Terminal

  datatype Completion = NoOutcome | TrayEjected | ReleasedForManualEject

  datatype Presence = Presence(drivePresent: bool, mediaStatusKnown: bool, mediaPresent: bool)
  {
    // The drive is gone, or it is known to hold no medium.
    predicate Absent() {
      !drivePresent || (mediaStatusKnown && !mediaPresent)
    }
  }

  datatype State = State(
    stable: nat, rearm: nat, failures: nat, attemptPermitted: bool, commandRequired: bool)

  const INITIAL: State := State(0, 0, 0, true, false)

  const BLOCKED: State := State(0, 0, 0, false, false)

  const REARMED: State := State(STABLE_OBSERVATIONS, 0, 0, true, false)

  function AfterFailure(m: State, failure: Failure): State {
    if failure.Transient? && m.failures < TRANSIENT_RETRY_LIMIT then
      State(0, 0, m.failures + 1, true, false)
    else
      State(0, 0, m.failures, false, true)
  }

  function AfterEject(completion: Completion): State {
    if completion.TrayEjected? then INITIAL else BLOCKED
  }

  function AfterObservation(m: State, presence: Presence): State {
    if presence.Absent() then
      var rearm := if m.rearm < REARM_OBSERVATIONS then m.rearm + 1 else m.rearm;
      if rearm >= REARM_OBSERVATIONS then State(0, rearm, 0, true, false)
      else m.(stable := 0, rearm := rearm)
    else
      var stable := if m.stable < STABLE_OBSERVATIONS then m.stable + 1 else m.stable;
      m.(stable := stable, rearm := 0,
         attemptPermitted := m.attemptPermitted && stable < STABLE_OBSERVATIONS)
  }

  // Whether observing `presence` in state `m` starts an automatic attempt.
  predicate StartsAttempt(m: State, presence: Presence) {
    && !presence.Absent()
    && m.attemptPermitted
    && m.stable + 1 >= STABLE_OBSERVATIONS
  }

  class OpticalMonitor {
    var stableObservations: nat
    var rearmObservations: nat
    var transientFailures: nat
    var attemptPermitted: bool
    var commandRequired: bool

    function Value(): State
      reads this
    {
      State(stableObservations, rearmObservations, transientFailures, attemptPermitted, commandRequired)
    }

    constructor ()
      ensures Value() == INITIAL
    {
      stableObservations, rearmObservations, transientFailures := 0, 0, 0;
      attemptPermitted, commandRequired := true, false;
    }

    method Initialize()
      modifies this
      ensures Value() == INITIAL
    {
      stableObservations, rearmObservations, transientFailures := 0, 0, 0;
      attemptPermitted, commandRequired := true, false;
    }

    method Block()
      modifies this
      ensures Value() == BLOCKED
    {
      stableObservations, rearmObservations, transientFailures := 0, 0, 0;
      attemptPermitted, commandRequired := false, false;
    }

    method SessionEnded()
      modifies this
      ensures Value() == INITIAL
    {
      Initialize();
    }

    method EjectCompleted(completion: Completion)
      modifies this
      ensures Value() == AfterEject(completion)
    {
      if completion == TrayEjected {
        SessionEnded();
      } else {
        Block();
      }
    }

    method Fail(failure: Failure)
      modifies this
      ensures Value() == AfterFailure(old(Value()), failure)
    {
      stableObservations, rearmObservations, attemptPermitted := 0, 0, false;
      if failure == Transient && transientFailures < TRANSIENT_RETRY_LIMIT {
        transientFailures := transientFailures + 1;
        attemptPermitted, commandRequired := true, false;
        return;
      }
      commandRequired := true;
    }

    method Retry()
      modifies this
      ensures Value() == REARMED
    {
      stableObservations := STABLE_OBSERVATIONS;
      rearmObservations, transientFailures := 0, 0;
      attemptPermitted, commandRequired := true, false;
    }

    method ObservationFailed()
      modifies this
      ensures Value() == old(Value()).(stable := 0)
    {
      stableObservations := 0;
    }

    method Observe(presence: Presence) returns (attempt: bool)
      modifies this
      ensures Value() == AfterObservation(old(Value()), presence)
      ensures attempt == StartsAttempt(old(Value()), presence)
    {
      var mediaAbsent := presence.mediaStatusKnown && !presence.mediaPresent;
      if !presence.drivePresent || mediaAbsent {
        stableObservations := 0;
        if rearmObservations < REARM_OBSERVATIONS {
          rearmObservations := rearmObservations + 1;
        }
        if rearmObservations >= REARM_OBSERVATIONS {
          transientFailures := 0;
          attemptPermitted, commandRequired := true, false;
        }
        return false;
      }
      rearmObservations := 0;
      if stableObservations < STABLE_OBSERVATIONS {
        stableObservations := stableObservations + 1;
      }
      if !attemptPermitted || stableObservations < STABLE_OBSERVATIONS {
        return false;
      }
      attemptPermitted := false;
      return true;
    }
  }

  // ---------------------------------------------------------------------
  // Histories

  datatype Step =
    | Initialized
    | BlockedBy
    | EjectDone(completion: Completion)
    | Failed(failure: Failure)
    | Retried
    | Unobserved
    | Observed(presence: Presence)

  function Next(m: State, step: Step): State {
    match step
    case Initialized => INITIAL
    case BlockedBy => BLOCKED
    case EjectDone(completion) => AfterEject(completion)
    case Failed(failure) => AfterFailure(m, failure)
    case Retried => REARMED
    case Unobserved => m.(stable := 0)
    case Observed(presence) => AfterObservation(m, presence)
  }

  function Run(m: State, steps: seq<Step>): State {
    if steps == [] then m else Next(Run(m, steps[..|steps| - 1]), steps[|steps| - 1])
  }

  // How many of the observations in `steps` start an attempt.
  function Attempts(m: State, steps: seq<Step>): nat {
    if steps == [] then 0
    else
      var before := steps[..|steps| - 1];
      var last := steps[|steps| - 1];
      Attempts(m, before)
      + (if last.Observed? && StartsAttempt(Run(m, before), last.presence) then 1 else 0)
  }

  predicate ExplicitReset(step: Step) {
    step.Initialized? || step.BlockedBy? || step.EjectDone? || step.Retried?
  }

  // Absent observations since the last observation of a medium, the last
  // recorded failure, or the last explicit reset.
  function AbsencesInARow(steps: seq<Step>): nat {
    if steps == [] then 0
    else
      var before := steps[..|steps| - 1];
      var last := steps[|steps| - 1];
      if last.Observed? then
        if last.presence.Absent() then AbsencesInARow(before) + 1 else 0
      else if last.Unobserved? then AbsencesInARow(before)
      else 0
  }

  // Observations of a medium since stability was last lost. A retry command
  // counts as a full stable run.
  function SteadyObservations(steps: seq<Step>): nat {
    if steps == [] then 0
    else
      var before := steps[..|steps| - 1];
      var last := steps[|steps| - 1];
      if last.Observed? then
        if last.presence.Absent() then 0 else SteadyObservations(before) + 1
      else if last.Retried? then 4
      else 0
  }

  // No reset happens while `steps` extends `before`: no explicit one, and no
  // step completes or prolongs a row of ten absences.
  ghost predicate ResetFree(before: seq<Step>, steps: seq<Step>) {
    && (forall i :: 0 <= i < |steps| ==> !ExplicitReset(steps[i]))
    && (forall n :: 1 <= n <= |steps| ==> AbsencesInARow(before + steps[..n]) < 10)
  }

  lemma ResetFreePrefix(before: seq<Step>, steps: seq<Step>)
    requires steps != [] && ResetFree(before, steps)
    ensures ResetFree(before, steps[..|steps| - 1])
    ensures AbsencesInARow(before + steps) < 10
    ensures (before + steps)[..|before + steps| - 1] == before + steps[..|steps| - 1]
  {
    var shorter := steps[..|steps| - 1];
    forall n | 1 <= n <= |shorter|
      ensures AbsencesInARow(before + shorter[..n]) < 10
    {
      assert shorter[..n] == steps[..n];
    }
    assert steps[..|steps|] == steps;
  }

  function Capped(count: nat, limit: nat): (r: nat) {
    if count < limit then count else limit
  }

  // The two debounce counters are functions of the history alone.
  lemma {:induction false} CountersAreHistory(steps: seq<Step>)
    ensures Run(INITIAL, steps).rearm == Capped(AbsencesInARow(steps), 10)
    ensures Run(INITIAL, steps).stable == Capped(SteadyObservations(steps), 4)
    ensures Run(INITIAL, steps).failures <= 2
  {
    if steps != [] {
      CountersAreHistory(steps[..|steps| - 1]);
    }
  }

  // An attempt starts exactly when a medium is seen, an attempt is permitted
  // and the medium has been seen four times in a row (a retry stands for all four).
  lemma AttemptNeedsSteadyMedium(steps: seq<Step>, presence: Presence)
    ensures StartsAttempt(Run(INITIAL, steps), presence)
       <==> (&& Run(INITIAL, steps).attemptPermitted
             && !presence.Absent()
             && SteadyObservations(steps + [Observed(presence)]) >= 4)
  {
    CountersAreHistory(steps);
    assert (steps + [Observed(presence)])[..|steps|] == steps;
  }

  // Attempts still available before a reset is needed.
  function Budget(m: State): int {
    (if m.attemptPermitted then 1 else 0) + 2 - m.failures
  }

  // Between two resets the attempts started never exceed the budget of the
  // state they start from; so, from any history at all, at most three
  // automatic attempts start before the next reset, in any interleaving of
  // observations and failures.
  lemma {:induction false} AtMostThreeAttempts(before: seq<Step>, steps: seq<Step>)
    requires ResetFree(before, steps)
    ensures Attempts(Run(INITIAL, before), steps) + Budget(Run(INITIAL, before + steps))
         <= Budget(Run(INITIAL, before)) <= 3
    ensures 0 <= Budget(Run(INITIAL, before + steps))
    ensures Run(Run(INITIAL, before), steps) == Run(INITIAL, before + steps)
  {
    CountersAreHistory(before);
    if steps == [] {
      assert before + steps == before;
    } else {
      var shorter := steps[..|steps| - 1];
      ResetFreePrefix(before, steps);
      AtMostThreeAttempts(before, shorter);
      CountersAreHistory(before + shorter);
      CountersAreHistory(before + steps);
      assert !ExplicitReset(steps[|steps| - 1]);
      BudgetStep(Run(INITIAL, before + shorter), steps[|steps| - 1]);
      hide Next, StartsAttempt, Budget, AbsencesInARow, SteadyObservations, ResetFree;
    }
  }

  // What an attempt starts with is spent from the budget.
  lemma BudgetStep(m: State, step: Step)
    requires !ExplicitReset(step) && m.failures <= 2 && Next(m, step).rearm < 10
    ensures (if step.Observed? && StartsAttempt(m, step.presence) then 1 else 0) + Budget(Next(m, step)) <= Budget(m)
    ensures 0 <= Budget(Next(m, step))
  {
  }

  // Invalid media and exhausted retries latch: after a terminal failure no
  // attempt starts until a reset or a further recorded failure.
  lemma {:induction false} TerminalFailureLatches(before: seq<Step>, steps: seq<Step>)
    requires before != [] && before[|before| - 1] == Failed(Terminal)
    requires ResetFree(before, steps)
    requires forall i :: 0 <= i < |steps| ==> !steps[i].Failed?
    ensures Attempts(Run(INITIAL, before), steps) == 0
    ensures Run(Run(INITIAL, before), steps) == Run(INITIAL, before + steps)
    ensures !Run(INITIAL, before + steps).attemptPermitted && Run(INITIAL, before + steps).commandRequired
  {
    if steps == [] {
      assert before + steps == before;
    } else {
      ResetFreePrefix(before, steps);
      TerminalFailureLatches(before, steps[..|steps| - 1]);
      CountersAreHistory(before + steps[..|steps| - 1]);
      CountersAreHistory(before + steps);
    }
  }

  const SEEN: Step := Observed(Presence(true, true, true))

  const FOUR_SEEN: seq<Step> := [SEEN, SEEN, SEEN, SEEN]

  // The bound is attained: a fresh monitor can start three attempts.
  lemma ThreeAttemptsHappen()
    ensures exists steps :: ResetFree([], steps) && Attempts(INITIAL, steps) == 3
  {
    hide Run, Attempts, AbsencesInARow;
    var lost := FOUR_SEEN + [Failed(Transient)];
    var steps := lost + (lost + FOUR_SEEN);
    LostBurst(0);
    LostBurst(1);
    OneBurst(State(0, 0, 2, true, false));
    AttemptsAppend(INITIAL, lost, lost + FOUR_SEEN);
    AttemptsAppend(Run(INITIAL, lost), lost, FOUR_SEEN);
    assert Attempts(INITIAL, steps) == 3;
    forall n | 1 <= n <= |steps| ensures AbsencesInARow([] + steps[..n]) < 10 {
      NoAbsences([] + steps[..n]);
    }
  }

  // A burst whose attempt fails for the time being leaves the next one open.
  lemma LostBurst(failures: nat)
    requires failures < 2
    ensures var m := State(0, 0, failures, true, false);
            && Attempts(m, FOUR_SEEN + [Failed(Transient)]) == 1
            && Run(m, FOUR_SEEN + [Failed(Transient)]) == State(0, 0, failures + 1, true, false)
  {
    OneBurst(State(0, 0, failures, true, false));
    assert (FOUR_SEEN + [Failed(Transient)])[..4] == FOUR_SEEN;
  }

  lemma OneBurst(m: State)
    requires m.attemptPermitted && m.stable == 0 && m.rearm == 0
    ensures Attempts(m, FOUR_SEEN) == 1
    ensures Run(m, FOUR_SEEN) == m.(stable := 4, attemptPermitted := false)
  {
    hide Run, Attempts;
    var s1, s2, s3 := [SEEN], [SEEN, SEEN], [SEEN, SEEN, SEEN];
    SeenOnce(m, []);
    SeenOnce(m, s1);
    SeenOnce(m, s2);
    SeenOnce(m, s3);
    assert [] + [SEEN] == s1 && s1 + [SEEN] == s2 && s2 + [SEEN] == s3 && s3 + [SEEN] == FOUR_SEEN;
    assert Run(m, []) == m && Attempts(m, []) == 0 by { NoSteps(m); }
    assert Run(m, s1) == m.(stable := 1) && Attempts(m, s1) == 0;
    assert Run(m, s2) == m.(stable := 2) && Attempts(m, s2) == 0;
    assert Run(m, s3) == m.(stable := 3) && Attempts(m, s3) == 0;
  }

  lemma NoSteps(m: State)
    ensures Run(m, []) == m && Attempts(m, []) == 0
  {
  }

  lemma SeenOnce(m: State, before: seq<Step>)
    ensures Run(m, before + [SEEN]) == Next(Run(m, before), SEEN)
    ensures Attempts(m, before + [SEEN])
         == Attempts(m, before) + (if StartsAttempt(Run(m, before), SEEN.presence) then 1 else 0)
  {
    assert (before + [SEEN])[..|before|] == before;
  }

  lemma {:induction false} RunAppend(m: State, left: seq<Step>, right: seq<Step>)
    ensures Run(m, left + right) == Run(Run(m, left), right)
  {
    if right == [] {
      assert left + right == left;
    } else {
      assert (left + right)[..|left + right| - 1] == left + right[..|right| - 1];
      RunAppend(m, left, right[..|right| - 1]);
    }
  }

  lemma {:induction false} AttemptsAppend(m: State, left: seq<Step>, right: seq<Step>)
    ensures Attempts(m, left + right) == Attempts(m, left) + Attempts(Run(m, left), right)
  {
    if right == [] {
      assert left + right == left;
    } else {
      assert (left + right)[..|left + right| - 1] == left + right[..|right| - 1];
      RunAppend(m, left, right[..|right| - 1]);
      AttemptsAppend(m, left, right[..|right| - 1]);
    }
  }

  lemma AttemptsGrow(before: seq<Step>, after: seq<Step>)
    requires before <= after
    ensures Attempts(INITIAL, before) <= Attempts(INITIAL, after)
  {
    AttemptsAppend(INITIAL, before, after[|before|..]);
    assert before + after[|before|..] == after;
  }

  lemma {:induction false} NoAbsences(steps: seq<Step>)
    requires forall i :: 0 <= i < |steps| ==> steps[i].Observed? ==> !steps[i].presence.Absent()
    ensures AbsencesInARow(steps) == 0
  {
    if steps != [] {
      NoAbsences(steps[..|steps| - 1]);
    }
  }
}
