// The removable-media event latch of src/app/physical_media_monitor.c.
//
// `PhysicalMediaMonitor` mutates its fields as the C struct does; the value
// functions specify it, and the history functions below say, without the
// counters, what the first latched event is.

module PhysicalMonitors {

  const ABSENT_CONFIRMATIONS: nat := 2
  const DISCONNECT_CONFIRMATIONS: nat := 3
  const FAULT_CONFIRMATIONS: nat := 3

  datatype Readiness = Unknown | Absent | Present

  datatype MediaEvent = NoMediaEvent | EjectRequest | NewMedia | Removal | MediaChanged

  datatype Observation = Observation(readiness: Readiness, generation: nat, event: MediaEvent)

  const NO_OBSERVATION: Observation := Observation(Unknown, 0, NoMediaEvent)

  datatype Event = NoEvent | EjectRequested | Changed | Disconnected | SessionFault

  datatype State = State(
    event: Event, generation: nat, absent: nat, disconnected: nat, fault: nat,
    generationKnown: bool, sessionFault: bool)

  const INITIAL: State := State(NoEvent, 0, 0, 0, 0, false, false)

  predicate EjectRequestMatches(observation: Observation, expectedGeneration: nat) {
    && observation.event == EjectRequest
    && observation.generation == expectedGeneration
    && observation.readiness == Present
  }

  function Bump(count: nat, limit: nat): nat {
    if count < limit then count + 1 else count
  }

  // An observation that proves the medium is not the one first seen.
  predicate Replaced(observation: Observation, generation: nat) {
    || observation.generation != generation
    || observation.event == NewMedia
    || observation.event == Removal
    || observation.event == MediaChanged
  }

  function AfterObservation(m: State, observation: Observation): State {
    if m.event != NoEvent then m
    else if observation.event == EjectRequest then m.(event := EjectRequested)
    else if m.generationKnown && Replaced(observation, m.generation) then m.(event := Changed)
    else
      var known := if m.generationKnown then m
                   else m.(generation := observation.generation, generationKnown := true);
      if known.sessionFault && observation.readiness == Present then known.(event := SessionFault)
      else
        var counted := known.(fault := if known.sessionFault then Bump(known.fault, FAULT_CONFIRMATIONS) else 0);
        if known.sessionFault && counted.fault >= FAULT_CONFIRMATIONS then counted.(event := SessionFault)
        else AfterReadiness(counted, observation.readiness)
  }

  function AfterReadiness(m: State, readiness: Readiness): State {
    match readiness
    case Present => m.(absent := 0)
    case Unknown => m
    case Absent =>
      var absent := Bump(m.absent, ABSENT_CONFIRMATIONS);
      m.(absent := absent, event := if absent >= ABSENT_CONFIRMATIONS then Changed else m.event)
  }

  function AfterConnection(m: State, statusKnown: bool, connected: bool): State {
    if m.event != NoEvent || !statusKnown then m
    else if connected then m.(disconnected := 0)
    else
      var disconnected := Bump(m.disconnected, DISCONNECT_CONFIRMATIONS);
      m.(disconnected := disconnected,
         event := if disconnected >= DISCONNECT_CONFIRMATIONS then Disconnected else NoEvent)
  }

  function AfterSessionFault(m: State): State {
    if m.event == NoEvent then m.(sessionFault := true) else m
  }

  class PhysicalMediaMonitor {
    var event: Event
    var generation: nat
    var absentObservations: nat
    var disconnectedObservations: nat
    var faultObservations: nat
    var generationKnown: bool
    var sessionFault: bool

    function Value(): State
      reads this
    {
      State(event, generation, absentObservations, disconnectedObservations, faultObservations,
            generationKnown, sessionFault)
    }

    constructor ()
      ensures Value() == INITIAL
    {
      event, generation := NoEvent, 0;
      absentObservations, disconnectedObservations, faultObservations := 0, 0, 0;
      generationKnown, sessionFault := false, false;
    }

    method LatchEvent(latched: Event) returns (current: Event)
      modifies this`event
      ensures event == (if old(event) == NoEvent then latched else old(event))
      ensures current == event
    {
      if event == NoEvent {
        event := latched;
      }
      return event;
    }

    method Observe(observation: Observation) returns (current: Event)
      modifies this
      ensures Value() == AfterObservation(old(Value()), observation)
      ensures current == event
    {
      if event != NoEvent {
        return event;
      }
      if observation.event == EjectRequest {
        current := LatchEvent(EjectRequested);
        return;
      }
      if generationKnown
        && (observation.generation != generation
            || observation.event == NewMedia
            || observation.event == Removal
            || observation.event == MediaChanged) {
        current := LatchEvent(Changed);
        return;
      }
      if !generationKnown {
        generation := observation.generation;
        generationKnown := true;
      }
      if sessionFault {
        if observation.readiness == Present {
          current := LatchEvent(SessionFault);
          return;
        }
        if faultObservations < FAULT_CONFIRMATIONS {
          faultObservations := faultObservations + 1;
        }
        if faultObservations >= FAULT_CONFIRMATIONS {
          current := LatchEvent(SessionFault);
          return;
        }
      } else {
        faultObservations := 0;
      }
      match observation.readiness {
        case Present =>
          absentObservations := 0;
        case Absent =>
          if absentObservations < ABSENT_CONFIRMATIONS {
            absentObservations := absentObservations + 1;
          }
          if absentObservations >= ABSENT_CONFIRMATIONS {
            current := LatchEvent(Changed);
            return;
          }
        case Unknown =>
      }
      return event;
    }

    method Connection(statusKnown: bool, connected: bool) returns (current: Event)
      modifies this
      ensures Value() == AfterConnection(old(Value()), statusKnown, connected)
      ensures current == event
    {
      if event != NoEvent || !statusKnown {
        return event;
      }
      if connected {
        disconnectedObservations := 0;
        return event;
      }
      if disconnectedObservations < DISCONNECT_CONFIRMATIONS {
        disconnectedObservations := disconnectedObservations + 1;
      }
      if disconnectedObservations >= DISCONNECT_CONFIRMATIONS {
        current := LatchEvent(Disconnected);
        return;
      }
      return event;
    }

    method ReportSessionFault()
      modifies this
      ensures Value() == AfterSessionFault(old(Value()))
    {
      if event == NoEvent {
        sessionFault := true;
      }
    }
  }

  // ---------------------------------------------------------------------
  // Histories

  datatype Step =
    | Observed(observation: Observation)
    | ConnectionSeen(statusKnown: bool, connected: bool)
    | FaultReported

  function Next(m: State, step: Step): State {
    match step
    case Observed(observation) => AfterObservation(m, observation)
    case ConnectionSeen(statusKnown, connected) => AfterConnection(m, statusKnown, connected)
    case FaultReported => AfterSessionFault(m)
  }

  function Run(steps: seq<Step>): State {
    if steps == [] then INITIAL else Next(Run(steps[..|steps| - 1]), steps[|steps| - 1])
  }

  function RunFrom(m: State, steps: seq<Step>): State
    decreases |steps|
  {
    if steps == [] then m else RunFrom(Next(m, steps[0]), steps[1..])
  }

  // Absent readings since the last present one.
  function AbsentRun(steps: seq<Step>): nat {
    if steps == [] then 0
    else
      var before, last := steps[..|steps| - 1], steps[|steps| - 1];
      if !last.Observed? || last.observation.readiness.Unknown? then AbsentRun(before)
      else if last.observation.readiness.Present? then 0
      else AbsentRun(before) + 1
  }

  // Known-disconnected readings since the last known-connected one.
  function DisconnectedRun(steps: seq<Step>): nat {
    if steps == [] then 0
    else
      var before, last := steps[..|steps| - 1], steps[|steps| - 1];
      if !last.ConnectionSeen? || !last.statusKnown then DisconnectedRun(before)
      else if last.connected then 0
      else DisconnectedRun(before) + 1
  }

  // Observations made since a session fault was first reported.
  function FaultRun(steps: seq<Step>): nat {
    if steps == [] then 0
    else
      var before, last := steps[..|steps| - 1], steps[|steps| - 1];
      if last.Observed? && FaultReported in before then FaultRun(before) + 1 else FaultRun(before)
  }

  // The generation of the medium first observed, if any was.
  function FirstGeneration(steps: seq<Step>): (bool, nat) {
    if steps == [] then (false, 0)
    else
      var first := FirstGeneration(steps[..|steps| - 1]);
      var last := steps[|steps| - 1];
      if first.0 then first
      else if last.Observed? then (true, last.observation.generation)
      else (false, 0)
  }

  // The event that `step` gives rise to after the uneventful history `steps`.
  function Trigger(steps: seq<Step>, step: Step): Event {
    match step
    case FaultReported => NoEvent
    case ConnectionSeen(_, _) =>
      if step.statusKnown && !step.connected && DisconnectedRun(steps) + 1 >= 3
      then Disconnected else NoEvent
    case Observed(observation) =>
      var (known, generation) := FirstGeneration(steps);
      if observation.event == EjectRequest then EjectRequested
      else if known && Replaced(observation, generation) then Changed
      else if FaultReported in steps
              && (observation.readiness == Present || FaultRun(steps) + 1 >= 3)
      then SessionFault
      else if observation.readiness == Absent && AbsentRun(steps) + 1 >= 2
      then Changed
      else NoEvent
  }

  // Reference definition: the first event any step gives rise to.
  function FirstEvent(steps: seq<Step>): Event {
    if steps == [] then NoEvent
    else
      var before := steps[..|steps| - 1];
      if FirstEvent(before) != NoEvent then FirstEvent(before)
      else Trigger(before, steps[|steps| - 1])
  }

  // The fields of an unlatched monitor, read off the history.
  ghost predicate Tracks(m: State, steps: seq<Step>) {
    && m.absent == AbsentRun(steps) < 2
    && m.disconnected == DisconnectedRun(steps) < 3
    && m.fault == FaultRun(steps) < 3
    && m.generationKnown == FirstGeneration(steps).0
    && m.generation == FirstGeneration(steps).1
    && (m.sessionFault <==> FaultReported in steps)
  }

  // The history functions, one step further.
  lemma HistoryStep(before: seq<Step>, last: Step)
    ensures AbsentRun(before + [last]) ==
            (if !last.Observed? || last.observation.readiness.Unknown? then AbsentRun(before)
             else if last.observation.readiness.Present? then 0 else AbsentRun(before) + 1)
    ensures DisconnectedRun(before + [last]) ==
            (if !last.ConnectionSeen? || !last.statusKnown then DisconnectedRun(before)
             else if last.connected then 0 else DisconnectedRun(before) + 1)
    ensures FaultRun(before + [last]) ==
            (if last.Observed? && FaultReported in before then FaultRun(before) + 1 else FaultRun(before))
    ensures FirstGeneration(before + [last]) ==
            (if FirstGeneration(before).0 then FirstGeneration(before)
             else if last.Observed? then (true, last.observation.generation) else (false, 0))
    ensures FaultReported in before + [last] <==> FaultReported in before || last == FaultReported
  {
  }

  lemma StepTracks(m: State, before: seq<Step>, last: Step)
    requires m.event == NoEvent && Tracks(m, before)
    requires m.generationKnown || m.generation == 0
    ensures Next(m, last).event == Trigger(before, last)
    ensures Trigger(before, last) == NoEvent ==> Tracks(Next(m, last), before + [last])
  {
    HistoryStep(before, last);
    if FaultReported !in before {
      NoFaultRun(before);
    }
  }

  // The latched event is the first one the history gives rise to, and while
  // nothing is latched every field is a function of the history: the counters
  // count since the last present or known-connected reading, below their
  // limits, and the stored generation is the first one observed.
  lemma {:induction false} LatchIsFirstEvent(steps: seq<Step>)
    ensures Run(steps).event == FirstEvent(steps)
    ensures FirstEvent(steps) == NoEvent ==> Tracks(Run(steps), steps)
  {
    if steps != [] {
      var before, last := steps[..|steps| - 1], steps[|steps| - 1];
      LatchIsFirstEvent(before);
      if FirstEvent(before) == NoEvent {
        GenerationUnknown(before);
        StepTracks(Run(before), before, last);
        assert before + [last] == steps;
      }
    }
  }

  lemma {:induction false} GenerationUnknown(steps: seq<Step>)
    ensures !FirstGeneration(steps).0 ==> FirstGeneration(steps).1 == 0
  {
  }

  lemma {:induction false} NoFaultRun(steps: seq<Step>)
    requires FaultReported !in steps
    ensures FaultRun(steps) == 0
  {
    if steps != [] {
      NoFaultRun(steps[..|steps| - 1]);
    }
  }

  // Every observation accepted before the latch shows the same generation and
  // carries no change event.
  lemma {:induction false} OneGenerationBeforeLatch(steps: seq<Step>, i: nat, j: nat)
    requires FirstEvent(steps) == NoEvent
    requires i < j < |steps| && steps[i].Observed? && steps[j].Observed?
    ensures steps[i].observation.generation == steps[j].observation.generation
    ensures steps[j].observation.event == NoMediaEvent
  {
    var before := steps[..|steps| - 1];
    if j < |before| {
      OneGenerationBeforeLatch(before, i, j);
    } else {
      GenerationIsKnown(before, i);
    }
  }

  lemma {:induction false} GenerationIsKnown(steps: seq<Step>, i: nat)
    requires FirstEvent(steps) == NoEvent
    requires i < |steps| && steps[i].Observed?
    ensures FirstGeneration(steps) == (true, steps[i].observation.generation)
  {
    var before := steps[..|steps| - 1];
    if i < |before| {
      GenerationIsKnown(before, i);
    }
  }

  // A latched event, with every other field, is permanent until the monitor
  // is initialised again.
  lemma {:induction false} LatchIsPermanent(m: State, steps: seq<Step>)
    requires m.event != NoEvent
    ensures RunFrom(m, steps) == m
  {
    if steps != [] {
      LatchIsPermanent(m, steps[1..]);
    }
  }

  function Observations(steps: seq<Step>): nat {
    if steps == [] then 0
    else Observations(steps[..|steps| - 1]) + (if steps[|steps| - 1].Observed? then 1 else 0)
  }

  lemma {:induction false} FaultRunCounts(before: seq<Step>, after: seq<Step>)
    requires FaultReported in before
    ensures FaultRun(before + after) == FaultRun(before) + Observations(after)
  {
    if after == [] {
      assert before + after == before;
    } else {
      assert (before + after)[..|before + after| - 1] == before + after[..|after| - 1];
      FaultRunCounts(before, after[..|after| - 1]);
    }
  }

  // A reported session fault cannot be sat out: whatever was seen before and
  // whatever is interleaved, the third observation after it latches an event.
  lemma FaultLatchesWithinThree(before: seq<Step>, after: seq<Step>)
    requires FaultReported in before
    requires Observations(after) >= 3
    ensures Run(before + after).event != NoEvent
  {
    LatchIsFirstEvent(before + after);
    FaultRunCounts(before, after);
  }

  // A latched eject request comes from an observation that carried one, and
  // any such observation made before another event latches it.
  lemma {:induction false} EjectLatchHasRequest(steps: seq<Step>)
    ensures FirstEvent(steps) == EjectRequested <==>
            exists i :: && 0 <= i < |steps|
                        && steps[i].Observed? && steps[i].observation.event == EjectRequest
                        && FirstEvent(steps[..i]) == NoEvent
  {
    if steps != [] {
      var before := steps[..|steps| - 1];
      EjectLatchHasRequest(before);
      forall i | 0 <= i < |before| ensures steps[..i] == before[..i] {}
      if FirstEvent(before) == NoEvent {
        assert steps[..|steps| - 1] == before;
        forall i | 0 <= i < |before| && before[i].Observed? && before[i].observation.event == EjectRequest
          ensures FirstEvent(before[..i]) != NoEvent
        {
        }
      } else {
        if FirstEvent(before) != EjectRequested {
          forall i | 0 <= i < |steps| && steps[i].Observed? && steps[i].observation.event == EjectRequest
            ensures FirstEvent(steps[..i]) != NoEvent
          {
            if i < |before| { assert steps[..i] == before[..i]; }
          }
        }
      }
    }
  }
}
