// The watch over a live physical disc and the eject protocol:
// src/app/runtime_physical.c.

module RuntimePhysical {
  import opened Bytes
  import opened SessionLedger
  import opened SessionState
  import opened RuntimePlatform
  import opened RuntimeMedia
  import opened RuntimePlayback
  import opened RuntimeSession
  import opened Phases
  import OpticalMonitors
  import PhysicalMonitors

  function ReasonOf(event: PhysicalMonitors.Event): EndReason {
    match event
    case EjectRequested => EjectWasRequested
    case Changed => MediaHasChanged
    case Disconnected => DriveDisconnected
    case _ => SessionFailed
  }

  // An eject request was latched for the medium that the session exports.
  ghost predicate LatchedHere(physical: Physical, media: Session, latches: set<Sighting>) {
    && media.exported.Some?
    && Sighting(media.exported.value, physical.generation) in latches
    && media.exported.value.origin == Drive(physical.ejectDevice.id)
  }

  method ResetPhysical(loop: Loop)
    modifies loop`physical
    ensures loop.physical == FRESH_PHYSICAL
  {
    loop.physical := FRESH_PHYSICAL;
  }

  // A new export starts a new watch.
  method BeginWatch(rt: Runtime, loop: Loop)
    modifies loop`physical
    ensures loop.physical ==
            if old(loop.physical).watched == rt.media.exported then old(loop.physical)
            else old(loop.physical).(watched := rt.media.exported, monitor := PhysicalMonitors.INITIAL,
                                     mediaDelay := 0, deviceDelay := 0)
  {
    if loop.physical.watched == rt.media.exported {
      return;
    }
    loop.physical := loop.physical.(watched := rt.media.exported, monitor := PhysicalMonitors.INITIAL,
                                    mediaDelay := 0, deviceDelay := 0);
  }

  // What the watch of the medium `exported` knows before it looks.
  function Fresh(p: Physical, exported: Option<Handle>): Physical {
    if p.watched == exported then p
    else Physical(PhysicalMonitors.INITIAL, exported, 0, 0, p.generation, p.ejectDrive, p.ejectDevice, p.cleanup)
  }

  // The medium is looked at when its delay is over, or the session has failed.
  predicate LookDue(p: Physical, sessionFailed: bool) {
    sessionFailed || p.mediaDelay == 0
  }

  // What the look showed. A reading that could not be had repeats the known
  // generation.
  function Reading(look: seq<Event>, monitor: PhysicalMonitors.State): PhysicalMonitors.Observation {
    if look == [] then PhysicalMonitors.Observation(PhysicalMonitors.Unknown, 0, PhysicalMonitors.NoMediaEvent)
    else if look[0].Observed? then look[0].observation
    else PhysicalMonitors.Observation(PhysicalMonitors.Unknown,
           if monitor.generationKnown then monitor.generation else 0, PhysicalMonitors.NoMediaEvent)
  }

  // The watch after a look at the medium that shows `observation`.
  function Shown(p: Physical, sessionFailed: bool, observation: PhysicalMonitors.Observation): Physical {
    if LookDue(p, sessionFailed) then
      var monitor := if sessionFailed then PhysicalMonitors.AfterSessionFault(p.monitor) else p.monitor;
      p.(monitor := PhysicalMonitors.AfterObservation(monitor, observation), mediaDelay := 9)
    else p.(mediaDelay := p.mediaDelay - 1)
  }

  // The watch after its look at the connection, which is due at intervals.
  function Told(p: Physical, known: bool, connected: bool): Physical {
    if p.deviceDelay > 0 then p.(deviceDelay := p.deviceDelay - 1)
    else p.(monitor := PhysicalMonitors.AfterConnection(p.monitor, known, connected), deviceDelay := 9)
  }

  // How the end of the session that exports `h` shows after `before`: its
  // emulator is stopped; for an eject request a new look is taken at the
  // medium; the medium is closed; and the request is completed exactly when
  // that look still shows it and the close succeeds.
  ghost predicate EndsAs(before: seq<Event>, after: seq<Event>, h: Handle, stop: seq<Event>, process: bool,
                         owned: bool, ejecting: bool, id: string, generation: nat)
  {
    exists look: seq<Event> ::
      && (if ejecting && !process then LookAt(look, h) else look == [])
      && after == before + stop + look
                  + (if process then [] else if owned then [CloseFailed(h)] else [Closed(h)])
                  + (if AsksStill(look, h, generation) && !owned then [EjectCompleted(id, generation)] else [])
  }

  // The duty that the end for `event` leaves when the medium stays open.
  predicate LeavesDuty(cleanup: Cleanup, event: PhysicalMonitors.Event) {
    && (event.EjectRequested? ==> cleanup == EjectCleanup)
    && (event.Changed? || event.Disconnected? ==> cleanup == Rearm)
    && (event.SessionFault? ==> cleanup == RequireRetry)
  }

  // What the drive monitor is told by the end of a session whose medium is
  // closed, when no request is completed.
  predicate Restarted(before: OpticalMonitors.State, after: OpticalMonitors.State, event: PhysicalMonitors.Event) {
    && (event.SessionFault? ==> after == OpticalMonitors.AfterFailure(before, OpticalMonitors.Terminal))
    && (event.Changed? || event.Disconnected? || event.EjectRequested? ==> after == OpticalMonitors.INITIAL)
  }

  lemma EndsWith(before: seq<Event>, after: seq<Event>, stop: seq<Event>, process: bool, media: Session, left: Session,
                 event: PhysicalMonitors.Event, id: string, generation: nat, look: seq<Event>, current: bool)
    requires media.exported.Some? && (process ==> left == media) && LooksAgain(look, ReasonOf(event), process, media)
    requires current <==> AsksStill(look, media.exported.value, generation)
    requires after == before + stop + look + (if process then [] else CloseEvents(media, left, !left.Owned()))
                      + (if current && !left.Owned() then [EjectCompleted(id, generation)] else [])
    ensures EndsAs(before, after, media.exported.value, stop, process, left.Owned(), event.EjectRequested?, id,
                   generation)
    ensures before <= after
  {
    hide AsksStill, LookAt;
    assert AsksStill(look, media.exported.value, generation) || !AsksStill(look, media.exported.value, generation);
  }

  lemma EndRestarts(event: PhysicalMonitors.Event, look: seq<Event>, current: bool, process: bool, media: Session,
                    pending: bool, before: OpticalMonitors.State, after: OpticalMonitors.State)
    requires media.exported.Some? && LooksAgain(look, ReasonOf(event), process, media)
    requires after == MonitorAfterEnd(before, EffectiveReason(ReasonOf(event), look, current), pending)
    ensures pending ==> after == OpticalMonitors.BLOCKED
    ensures !pending && !process && !current ==> Restarted(before, after, event)
  {
  }

  lemma PhysicalAfterEnd(event: PhysicalMonitors.Event, before: Physical, after: Physical, media: Session,
                         left: Session, latches: set<Sighting>)
    requires event.EjectRequested? ==> LatchedHere(before, media, latches)
    requires left == media || ClosedTo(media, left)
    requires if left.Owned()
             then && after == before.(cleanup := after.cleanup) && !after.cleanup.NoCleanup?
                  && (event.EjectRequested? <==> after.cleanup.EjectCleanup?)
             else after == FRESH_PHYSICAL
    ensures PhysicalOk(after, left, latches)
  {
  }

  // The monitor is told of the connection at intervals.
  method ObserveConnection(loop: Loop, known: bool, connected: bool)
    modifies loop`physical
    ensures loop.physical == Told(old(loop.physical), known, connected)
  {
    if loop.physical.deviceDelay > 0 {
      loop.physical := loop.physical.(deviceDelay := loop.physical.deviceDelay - 1);
      return;
    }
    loop.physical := loop.physical.(
      monitor := PhysicalMonitors.AfterConnection(loop.physical.monitor, known, connected),
      deviceDelay := DEVICE_INTERVAL);
  }

  // The monitor is shown the medium at intervals, and at once when the
  // session has failed.
  method ObserveMedia(rt: Runtime, loop: Loop, sessionFailed: bool)
      returns (observation: PhysicalMonitors.Observation, ghost look: seq<Event>)
    requires rt.Valid({}) && rt.media.exported.Some?
    modifies rt`log, rt`ledger, loop`physical
    ensures rt.Valid({}) && rt.ledger.latches == old(rt.ledger).latches
    ensures rt.log == old(rt.log) + look
    ensures if LookDue(old(loop.physical), sessionFailed) then LookAt(look, rt.media.exported.value) else look == []
    ensures observation == Reading(look, old(loop.physical).monitor)
    ensures loop.physical == Shown(old(loop.physical), sessionFailed, observation)
    ensures observation.event.EjectRequest? ==>
              && rt.ledger.seen == Some(Sighting(rt.media.exported.value, observation.generation))
              && rt.media.exported.value.origin.Drive?
  {
    hide Runtime.Tracked, Table, PendingHeld, PendingFor, DriveOk;
    if sessionFailed {
      loop.physical := loop.physical.(monitor := PhysicalMonitors.AfterSessionFault(loop.physical.monitor));
    }
    if !sessionFailed && loop.physical.mediaDelay > 0 {
      loop.physical := loop.physical.(mediaDelay := loop.physical.mediaDelay - 1);
      return PhysicalMonitors.NO_OBSERVATION, [];
    }
    observation, look := ShowMedia(rt, loop);
  }

  method ShowMedia(rt: Runtime, loop: Loop)
      returns (observation: PhysicalMonitors.Observation, ghost look: seq<Event>)
    requires rt.Valid({}) && rt.media.exported.Some?
    modifies rt`log, rt`ledger, loop`physical
    ensures rt.Valid({}) && rt.ledger.latches == old(rt.ledger).latches
    ensures rt.log == old(rt.log) + look && LookAt(look, rt.media.exported.value)
    ensures observation == Reading(look, old(loop.physical).monitor)
    ensures loop.physical == old(loop.physical).(
              monitor := PhysicalMonitors.AfterObservation(old(loop.physical).monitor, observation),
              mediaDelay := MEDIA_INTERVAL)
    ensures observation.event.EjectRequest? ==>
              && rt.ledger.seen == Some(Sighting(rt.media.exported.value, observation.generation))
              && rt.media.exported.value.origin.Drive?
  {
    hide Runtime.Tracked, Table, PendingHeld, PendingFor, DriveOk, PhysicalMonitors.AfterObservation;
    assert rt.media.exported.value in Held(rt.media);
    var ok;
    ok, observation := ObserveExport(rt, rt.media.exported.value);
    look := rt.log[|old(rt.log)|..];
    if !ok {
      observation := observation.(generation :=
        if loop.physical.monitor.generationKnown then loop.physical.monitor.generation else 0);
    }
    loop.physical := loop.physical.(monitor := PhysicalMonitors.AfterObservation(loop.physical.monitor, observation),
                                    mediaDelay := MEDIA_INTERVAL);
  }

  // Completes the request on the drive it was made on.
  method CompleteEject(rt: Runtime, loop: Loop)
    requires rt.Valid({}) && loop.Followed()
    requires Permitted(rt.ledger, EjectCompleted(loop.physical.ejectDevice.id, loop.physical.generation))
    modifies rt`log, rt`ledger, loop`physical, loop`optical, loop`history, loop`phase
    ensures rt.Valid({}) && rt.ledger.latches == old(rt.ledger).latches && loop.physical == FRESH_PHYSICAL
    ensures loop.Followed() && old(loop.history) <= loop.history
    ensures || (loop.history == old(loop.history) + [OpticalMonitors.EjectDone(OpticalMonitors.TrayEjected)]
                && loop.optical == OpticalMonitors.INITIAL)
            || (loop.history == old(loop.history) + [OpticalMonitors.EjectDone(OpticalMonitors.ReleasedForManualEject)]
                && loop.optical == OpticalMonitors.BLOCKED)
            || (!rt.reliable && loop.history == old(loop.history) + [OpticalMonitors.Initialized]
                && loop.optical == OpticalMonitors.INITIAL && loop.phase.Attention?)
    ensures rt.log == old(rt.log) + [EjectCompleted(old(loop.physical).ejectDevice.id, old(loop.physical).generation)]
  {
    hide Runtime.Tracked, Custody, DriveOk;
    var ok, completion := CompleteEjectRequest(rt, loop.physical.ejectDevice.id, loop.physical.generation);
    if ok && completion.NoOutcome? {
      ok := false;
    }
    if ok {
      loop.Tell(OpticalMonitors.EjectDone(completion));
    } else {
      loop.Tell(OpticalMonitors.Initialized);
      loop.phase := Attention;
    }
    ResetPhysical(loop);
  }

  function CleanupFor(reason: EndReason): Cleanup {
    match reason
    case SessionFailed => RequireRetry
    case EjectWasRequested => EjectCleanup
    case _ => Rearm
  }

  // The last thing that happened is the completion of the latched request.
  predicate JustCompleted(log: seq<Event>, physical: Physical) {
    log != [] && log[|log| - 1] == EjectCompleted(physical.ejectDevice.id, physical.generation)
  }

  // Ends the session for `event`. What could not be closed is left to the
  // cleanup cycle with the duty that `event` implies; an eject request that
  // the last look authorised is completed as soon as the medium is closed.
  method FinishWatch(rt: Runtime, loop: Loop, event: PhysicalMonitors.Event)
    requires rt.Valid({}) && InventoryOk(loop.devices, rt.pending) && loop.Followed() && rt.media.exported.Some?
    requires rt.media.open ==> Shows(loop, rt.media)
    requires event.EjectRequested? ==> LatchedHere(loop.physical, rt.media, rt.ledger.latches)
    modifies rt`owner, rt`process, rt`storage, rt`terminalFailed, rt`media, rt`log, rt`ledger
    modifies loop`phase, loop`backend, loop`imagePath, loop`imageSource, loop`optical, loop`history
    modifies loop`physical, loop`observationDelay
    ensures Sound(rt, loop) && old(loop.history) <= loop.history && old(rt.log) <= rt.log
    ensures rt.media == old(rt.media) || ClosedTo(old(rt.media), rt.media)
    ensures rt.process ==> rt.media == old(rt.media) && old(rt.process)
    ensures !rt.process ==> !rt.media.open
    ensures if rt.media.Owned()
            then && loop.physical == old(loop.physical).(cleanup := loop.physical.cleanup)
                 && LeavesDuty(loop.physical.cleanup, event) && loop.optical == OpticalMonitors.BLOCKED
                 && loop.phase.Attention?
            else loop.physical == FRESH_PHYSICAL
    ensures EndsAs(old(rt.log), rt.log, old(rt.media).exported.value, StopEvents(old(rt.process), rt.process),
                   rt.process, rt.media.Owned(), event.EjectRequested?, old(loop.physical).ejectDevice.id,
                   old(loop.physical).generation)
    ensures !rt.media.Owned() && !JustCompleted(rt.log, old(loop.physical)) ==>
              Restarted(old(loop.optical), loop.optical, event)
    ensures loop.observationDelay == OBSERVATION_INTERVAL
    ensures rt.reliable ==> !rt.process && !rt.media.Owned()
  {
    hide Runtime.Tracked, Custody, DriveOk, InventoryOk, Permitted, OpticalMonitors.Run, AsksStill, EndsAs;
    hide ReleasedFor, LatchedHere, LooksAgain, MonitorAfterEnd, EffectiveReason, PhysicalOk, Restarted, LeavesDuty;
    hide CloseEvents, StopEvents, LookAt, ReasonOf;
    var reason := ReasonOf(event);
    ReasonOfEject(event);
    ghost var physical := loop.physical;
    ghost var optical := loop.optical;
    var pending, current;
    ghost var look;
    pending, current, look := EndPhysical(rt, loop, reason, loop.physical.generation);
    EndRestarts(event, look, current, rt.process, old(rt.media), pending, optical, loop.optical);
    if current && !pending {
      MayComplete(rt.ledger, loop.physical, old(rt.media));
    }
    Conclude(rt, loop, event, reason, pending, current);
    PhysicalAfterEnd(event, physical, loop.physical, old(rt.media), rt.media, rt.ledger.latches);
    EndsWith(old(rt.log), rt.log, StopEvents(old(rt.process), rt.process), rt.process, old(rt.media), rt.media,
             event, physical.ejectDevice.id, physical.generation, look, current);
  }

  lemma ReasonOfEject(event: PhysicalMonitors.Event)
    ensures ReasonOf(event).EjectWasRequested? <==> event.EjectRequested?
  {
  }

  // Notes the duty of a medium that stays open, or completes the request.
  method Conclude(rt: Runtime, loop: Loop, event: PhysicalMonitors.Event, reason: EndReason, pending: bool,
                  current: bool)
    requires rt.Valid({}) && loop.Followed() && reason == ReasonOf(event)
    requires current && !pending ==>
               && event.EjectRequested?
               && Permitted(rt.ledger, EjectCompleted(loop.physical.ejectDevice.id, loop.physical.generation))
    modifies rt`log, rt`ledger, loop`physical, loop`optical, loop`history, loop`phase, loop`observationDelay
    ensures rt.Valid({}) && rt.ledger.latches == old(rt.ledger).latches
    ensures loop.Followed() && old(loop.history) <= loop.history && loop.observationDelay == OBSERVATION_INTERVAL
    ensures if pending
            then && loop.physical == old(loop.physical).(cleanup := loop.physical.cleanup)
                 && LeavesDuty(loop.physical.cleanup, event)
                 && (event.EjectRequested? <==> loop.physical.cleanup.EjectCleanup?)
                 && !loop.physical.cleanup.NoCleanup?
            else loop.physical == FRESH_PHYSICAL
    ensures pending || !current ==> loop.optical == old(loop.optical) && loop.phase == old(loop.phase)
    ensures rt.log == old(rt.log) + (if current && !pending
              then [EjectCompleted(old(loop.physical).ejectDevice.id, old(loop.physical).generation)] else [])
  {
    hide Runtime.Tracked, Custody, DriveOk, Permitted, OpticalMonitors.Run;
    loop.observationDelay := OBSERVATION_INTERVAL;
    if pending {
      loop.physical := loop.physical.(cleanup := CleanupFor(reason));
      return;
    }
    if reason.EjectWasRequested? && current {
      CompleteEject(rt, loop);
      return;
    }
    ResetPhysical(loop);
  }

  lemma MayComplete(ledger: Ledger, physical: Physical, media: Session)
    requires LatchedHere(physical, media, ledger.latches)
    requires ReleasedFor(ledger, media.exported.value, physical.generation)
    ensures Permitted(ledger, EjectCompleted(physical.ejectDevice.id, physical.generation))
  {
  }

  // Watches the open physical session; true when the session was ended or its
  // end was tried again. The outside says whether the session has failed and
  // whether the drive is known to be connected.
  method Poll(rt: Runtime, loop: Loop, sessionFailed: bool, known: bool, connected: bool) returns (ended: bool)
    requires Sound(rt, loop) && (rt.media.open ==> !rt.media.image)
    modifies rt`owner, rt`process, rt`storage, rt`terminalFailed, rt`media, rt`log, rt`ledger
    modifies loop`phase, loop`backend, loop`imagePath, loop`imageSource, loop`optical, loop`history
    modifies loop`physical, loop`observationDelay
    ensures Sound(rt, loop) && old(loop.history) <= loop.history
    ensures rt.media == old(rt.media) || ClosedTo(old(rt.media), rt.media)
    ensures !ended ==> rt.media == old(rt.media) && rt.process == old(rt.process)
    ensures ended ==> rt.process || !rt.media.open
    ensures rt.process ==> old(rt.process)
    ensures old(rt.log) <= rt.log
    ensures ended && !rt.media.Owned() ==> loop.physical == FRESH_PHYSICAL
    ensures ended && rt.media.Owned() ==> !loop.physical.cleanup.NoCleanup?
    ensures !ended && rt.media.open ==> rt.media.exported.None? || loop.physical.monitor.event.NoEvent?
    ensures old(rt.media).exported.None? ==> !ended && loop.physical == old(loop.physical) && rt.log == old(rt.log)
    ensures old(rt.media).open && old(rt.media).exported.Some? ==>
              if old(loop.physical).cleanup.NoCleanup?
              then Watches(old(loop.physical), loop.physical, old(rt.log), rt.log, old(rt.media).exported.value,
                           old(rt.process), rt.process, rt.media.Owned(), sessionFailed, known, connected,
                           rt.opticalDevice, ended)
              else && ended
                   && EndsAs(old(rt.log), rt.log, old(rt.media).exported.value,
                             StopEvents(old(rt.process), rt.process), rt.process, rt.media.Owned(),
                             old(loop.physical).cleanup.EjectCleanup?, old(loop.physical).ejectDevice.id,
                             old(loop.physical).generation)
    ensures rt.reliable && ended ==> !rt.process && !rt.media.Owned()
  {
    hide Runtime.Tracked, Table, PendingHeld, PendingFor, InventoryOk, DriveOk, OpticalMonitors.Run, EndsAs, Watches;
    if rt.media.exported.None? {
      return false;
    }
    if !loop.physical.cleanup.NoCleanup? {
      if rt.media.open {
        RetryEnd(rt, loop);
        return true;
      }
      return false;
    }
    ended := Watch(rt, loop, sessionFailed, known, connected);
  }

  // The watch goes on until an event ends it.
  method Watch(rt: Runtime, loop: Loop, sessionFailed: bool, known: bool, connected: bool) returns (ended: bool)
    requires Sound(rt, loop) && (rt.media.open ==> !rt.media.image)
    requires rt.media.exported.Some? && loop.physical.cleanup.NoCleanup?
    modifies rt`owner, rt`process, rt`storage, rt`terminalFailed, rt`media, rt`log, rt`ledger
    modifies loop`phase, loop`backend, loop`imagePath, loop`imageSource, loop`optical, loop`history
    modifies loop`physical, loop`observationDelay
    ensures Sound(rt, loop) && old(loop.history) <= loop.history && old(rt.log) <= rt.log
    ensures rt.media == old(rt.media) || ClosedTo(old(rt.media), rt.media)
    ensures !ended ==> rt.media == old(rt.media) && rt.process == old(rt.process)
    ensures ended ==> rt.process || !rt.media.open
    ensures rt.process ==> old(rt.process)
    ensures ended && !rt.media.Owned() ==> loop.physical == FRESH_PHYSICAL
    ensures ended && rt.media.Owned() ==> !loop.physical.cleanup.NoCleanup?
    ensures !ended ==> loop.physical.monitor.event.NoEvent?
    ensures Watches(old(loop.physical), loop.physical, old(rt.log), rt.log, old(rt.media).exported.value,
                    old(rt.process), rt.process, rt.media.Owned(), sessionFailed, known, connected,
                    rt.opticalDevice, ended)
    ensures rt.reliable && ended ==> !rt.process && !rt.media.Owned()
  {
    hide Runtime.Tracked, Table, PendingHeld, PendingFor, InventoryOk, DriveOk, OpticalMonitors.Run, EndsAs;
    hide Fresh, Shown, Told, LookDue, Restarted, LeavesDuty, StopEvents, PhysicalMonitors.AfterObservation;
    var observation;
    ghost var look;
    observation, look := LookAround(rt, loop, sessionFailed, known, connected);
    var event := loop.physical.monitor.event;
    if event.NoEvent? {
      return false;
    }
    if event.EjectRequested? && observation.event.EjectRequest? && !loop.physical.ejectDrive {
      LatchEject(rt, loop, observation.generation);
    }
    FinishWatch(rt, loop, event);
    return true;
  }

  // The looks of one poll.
  method LookAround(rt: Runtime, loop: Loop, sessionFailed: bool, known: bool, connected: bool)
      returns (observation: PhysicalMonitors.Observation, ghost look: seq<Event>)
    requires Sound(rt, loop) && rt.media.exported.Some? && loop.physical.cleanup.NoCleanup?
    modifies rt`log, rt`ledger, loop`physical
    ensures rt.Valid({}) && rt.ledger.latches == old(rt.ledger).latches
    ensures var begun := Fresh(old(loop.physical), rt.media.exported);
            && (if LookDue(begun, sessionFailed) then LookAt(look, rt.media.exported.value) else look == [])
            && observation == Reading(look, begun.monitor)
            && loop.physical == Told(Shown(begun, sessionFailed, observation), known, connected)
    ensures rt.log == old(rt.log) + look
    ensures loop.physical.cleanup.NoCleanup? && !loop.physical.ejectDrive
    ensures loop.physical.monitor.event.EjectRequested? ==>
              && look != [] && look[0].Observed? && observation == look[0].observation
              && observation.event.EjectRequest?
              && rt.ledger.seen == Some(Sighting(rt.media.exported.value, observation.generation))
              && rt.media.exported.value.origin.Drive?
  {
    hide Runtime.Tracked, Custody, InventoryOk, DriveOk, OpticalMonitors.Run;
    BeginWatch(rt, loop);
    observation, look := ObserveMedia(rt, loop, sessionFailed);
    ObserveConnection(loop, known, connected);
  }

  // What one poll of the watch over the medium `h` does. The monitor is shown
  // the medium and told of the connection as each is due. Without an event the
  // watch goes on. Otherwise the session ends for that event, and an eject
  // request, seen in this very look, is latched first.
  ghost predicate Watches(before: Physical, after: Physical, told: seq<Event>, now: seq<Event>, h: Handle,
                          ran: bool, process: bool, owned: bool, sessionFailed: bool, known: bool, connected: bool,
                          device: Device, ended: bool)
  {
    var begun := Fresh(before, Some(h));
    exists look: seq<Event> ::
      && (if LookDue(begun, sessionFailed) then LookAt(look, h) else look == [])
      && var seen := Told(Shown(begun, sessionFailed, Reading(look, begun.monitor)), known, connected);
         && ended == !seen.monitor.event.NoEvent?
         && if !ended then after == seen && now == told + look
            else if !seen.monitor.event.EjectRequested?
            then EndsAs(told + look, now, h, StopEvents(ran, process), process, owned, false,
                        seen.ejectDevice.id, seen.generation)
            else
              && look != [] && look[0].Observed?
              && look[0].observation.event.EjectRequest?
              && EndsAs(told + look + [Latched(h, look[0].observation.generation)], now, h,
                        StopEvents(ran, process), process, owned, true, device.id, look[0].observation.generation)
  }

  // Notes the request of the drive that the last observation showed.
  method LatchEject(rt: Runtime, loop: Loop, generation: nat)
    requires rt.Valid({}) && rt.media.exported.Some? && rt.media.exported.value.origin.Drive?
    requires rt.ledger.seen == Some(Sighting(rt.media.exported.value, generation))
    modifies rt`log, rt`ledger, loop`physical
    ensures rt.Valid({}) && LatchedHere(loop.physical, rt.media, rt.ledger.latches)
    ensures loop.physical == old(loop.physical).(generation := generation, ejectDrive := rt.driveKnown,
                                                 ejectDevice := rt.opticalDevice)
    ensures rt.log == old(rt.log) + [Latched(rt.media.exported.value, generation)]
  {
    hide Runtime.Tracked, Table, PendingHeld, PendingFor;
    loop.physical := loop.physical.(generation := generation, ejectDrive := rt.driveKnown,
                                    ejectDevice := rt.opticalDevice);
    rt.Record(Latched(rt.media.exported.value, generation));
  }

  // The playback of an ending session did not stop before.
  method RetryEnd(rt: Runtime, loop: Loop)
    requires Sound(rt, loop) && !loop.physical.cleanup.NoCleanup?
    requires rt.media.open && rt.media.exported.Some? && !rt.media.image
    modifies rt`owner, rt`process, rt`storage, rt`terminalFailed, rt`media, rt`log, rt`ledger
    modifies loop`phase, loop`backend, loop`imagePath, loop`imageSource, loop`optical, loop`history
    modifies loop`physical, loop`observationDelay
    ensures Sound(rt, loop) && old(loop.history) <= loop.history && old(rt.log) <= rt.log
    ensures rt.media == old(rt.media) || ClosedTo(old(rt.media), rt.media)
    ensures !rt.process ==> !rt.media.open
    ensures rt.process ==> old(rt.process)
    ensures if rt.media.Owned() then loop.physical == old(loop.physical) else loop.physical == FRESH_PHYSICAL
    ensures EndsAs(old(rt.log), rt.log, old(rt.media).exported.value, StopEvents(old(rt.process), rt.process),
                   rt.process, rt.media.Owned(), old(loop.physical).cleanup.EjectCleanup?,
                   old(loop.physical).ejectDevice.id, old(loop.physical).generation)
    ensures rt.reliable ==> !rt.process && !rt.media.Owned()
  {
    hide Runtime.Tracked, Table, PendingHeld, PendingFor, InventoryOk, DriveOk;
    assert rt.media.WellFormed();
    var event := if loop.physical.cleanup.EjectCleanup? then PhysicalMonitors.EjectRequested
                 else if loop.physical.cleanup.RequireRetry? then PhysicalMonitors.SessionFault
                 else PhysicalMonitors.Changed;
    FinishWatch(rt, loop, event);
  }

  // Just before the waiting medium is closed, an eject request that is no
  // longer current is turned into a plain rearm.
  method ValidateCleanup(rt: Runtime, loop: Loop) returns (ghost look: seq<Event>)
    requires Sound(rt, loop)
    modifies rt`log, rt`ledger, loop`physical
    ensures Sound(rt, loop) && rt.ledger.live == old(rt.ledger).live
    ensures rt.log == old(rt.log) + look
    ensures if old(loop.physical).cleanup.EjectCleanup? && rt.media.exported.Some?
            then LookAt(look, rt.media.exported.value)
            else look == []
    ensures loop.physical
         == if && old(loop.physical).cleanup.EjectCleanup?
               && !(rt.media.exported.Some?
                    && AsksStill(look, rt.media.exported.value, old(loop.physical).generation))
            then old(loop.physical).(cleanup := Rearm)
            else old(loop.physical)
    ensures loop.physical.cleanup.EjectCleanup? && !rt.process ==>
              && LatchedHere(loop.physical, rt.media, rt.ledger.latches)
              && rt.ledger.authorised == Some(Sighting(rt.media.exported.value, loop.physical.generation))
  {
    hide Runtime.Tracked, Custody, DriveOk, InventoryOk, LookAt, AsksStill;
    look := [];
    if loop.physical.cleanup.EjectCleanup? {
      var current := false;
      if rt.media.exported.Some? {
        current := Authorise(rt, loop.physical.generation);
        look := rt.log[|old(rt.log)|..];
      }
      if !current {
        loop.physical := loop.physical.(cleanup := Rearm);
      }
    }
  }

  // The waiting medium is closed: its duty is done now.
  method CleanupCompleted(rt: Runtime, loop: Loop)
    requires Sound(rt, loop)
    requires loop.physical.cleanup.EjectCleanup? ==>
               Permitted(rt.ledger, EjectCompleted(loop.physical.ejectDevice.id, loop.physical.generation))
    modifies rt`log, rt`ledger, loop`physical, loop`optical, loop`history, loop`phase
    ensures Sound(rt, loop) && loop.physical == FRESH_PHYSICAL && old(loop.history) <= loop.history
    ensures old(loop.physical).cleanup.Rearm? ==> loop.optical == OpticalMonitors.INITIAL
    ensures old(loop.physical).cleanup.RequireRetry? ==>
              loop.optical == OpticalMonitors.AfterFailure(old(loop.optical), OpticalMonitors.Terminal)
    ensures old(loop.physical).cleanup.NoCleanup? ==> loop.optical == old(loop.optical)
    ensures old(loop.physical).cleanup.EjectCleanup? ==>
              loop.optical in {OpticalMonitors.INITIAL, OpticalMonitors.BLOCKED}
    ensures rt.log == if old(loop.physical).cleanup.EjectCleanup?
                      then old(rt.log)
                           + [EjectCompleted(old(loop.physical).ejectDevice.id, old(loop.physical).generation)]
                      else old(rt.log)
  {
    hide Runtime.Tracked, Custody, DriveOk, InventoryOk, Permitted;
    if loop.physical.cleanup.Rearm? {
      loop.Tell(OpticalMonitors.Initialized);
    } else if loop.physical.cleanup.RequireRetry? {
      loop.Tell(OpticalMonitors.Failed(OpticalMonitors.Terminal));
    } else if loop.physical.cleanup.EjectCleanup? {
      CompleteEject(rt, loop);
      return;
    }
    ResetPhysical(loop);
  }
}
