// The worker: the cycles of src/app/runtime.c, the drive loop of
// src/app/runtime_drive_loop.c and the final cleanup of
// src/app/runtime_controls.c.

module RuntimeLoop {
  import opened Bytes
  import opened SessionLedger
  import opened SessionState
  import opened RuntimePlatform
  import opened RuntimeMedia
  import opened RuntimePlayback
  import opened RuntimeDrives
  import opened RuntimeSession
  import opened RuntimePhysical
  import opened RuntimeActions
  import opened RuntimeEffects
  import opened RuntimeCycles
  import opened OpticalMonitors
  import opened Phases
  import RuntimeCommands

  // ---------------------------------------------------------------------
  // The drive loop

  method DescribeList(rt: Runtime, loop: Loop)
    requires Sound(rt, loop)
    modifies loop`devices
    ensures Sound(rt, loop)
  {
    hide Runtime.Tracked, Custody, DriveOk, PendingFor;
    loop.devices := Describe(rt, loop.devices);
  }

  // Applies a requested drive selection, if there is one.
  method ApplyDriveSelection(rt: Runtime, loop: Loop, requested: Option<string>) returns (applied: bool)
    requires Sound(rt, loop)
    modifies rt, loop
    ensures Sound(rt, loop) && applied == requested.Some? && rt.process == old(rt.process)
    ensures Unsent(rt, loop) && rt.driveOpens == old(rt.driveOpens)
    ensures rt.media.open ==> rt.media == old(rt.media)
    ensures requested.None? ==>
              && rt.media == old(rt.media) && rt.pending == old(rt.pending) && rt.ledger == old(rt.ledger)
              && loop.physical == old(loop.physical) && rt.opticalDevice == old(rt.opticalDevice)
    ensures requested.None? ==> ViewOf(rt, loop) == old(ViewOf(rt, loop))
    ensures requested.Some? ==> Selects(old(ViewOf(rt, loop)), ViewOf(rt, loop), requested.value)
  {
    hide Sound, Runtime.Valid, ViewOf, Selects, Changes, Accepts, AsksAttention;
    if requested.None? {
      return false;
    }
    var selected := ChangeDrive(rt, loop, requested.value);
    ghost var changed := ViewOf(rt, loop);
    if selected {
      AfterSelect(rt, loop);
    } else {
      ShowAttention(rt, loop);
    }
    DriveSelected(old(ViewOf(rt, loop)), changed, ViewOf(rt, loop), requested.value, selected);
    return true;
  }

  // What is open makes way for the selected drive.
  method ChangeDrive(rt: Runtime, loop: Loop, id: string) returns (ok: bool)
    requires Sound(rt, loop)
    modifies rt`media, rt`pending, rt`log, rt`ledger, loop`devices
    ensures Sound(rt, loop) && Changes(old(ViewOf(rt, loop)), ViewOf(rt, loop), id, ok)
    ensures rt.media.open ==> rt.media == old(rt.media)
  {
    hide Runtime.Tracked, Custody, DriveOk, InventoryOk, Run, MadeWay, CanRetain, SetAside, PendingFor, PendingHeld;
    ok := Select(rt, loop, id);
  }

  method AfterSelect(rt: Runtime, loop: Loop)
    requires Sound(rt, loop)
    modifies rt`preservationHold, rt`opticalDevice, rt`driveKnown, loop
    ensures Sound(rt, loop) && old(loop.history) <= loop.history
    ensures Accepts(old(ViewOf(rt, loop)), ViewOf(rt, loop))
  {
    hide Runtime.Tracked, Custody, DriveOk, InventoryOk, Run;
    rt.preservationHold := false;
    if !rt.media.Owned() {
      StartOver(rt, loop);
    }
    loop.inventoryDelay := 0;
    loop.pendingCleanupDelay := OBSERVATION_INTERVAL * 5;
    DescribeList(rt, loop);
  }

  // Nothing is owned after the selection: the new drive is looked at afresh.
  method StartOver(rt: Runtime, loop: Loop)
    requires rt.Valid({}) && InventoryOk(loop.devices, rt.pending) && loop.Followed() && !rt.media.Owned()
    modifies rt`opticalDevice, rt`driveKnown, loop
    ensures Sound(rt, loop) && loop.physical == FRESH_PHYSICAL && rt.opticalDevice == NO_DEVICE
    ensures loop.optical == REARMED && loop.history == old(loop.history) + [Retried]
    ensures loop.phase.Discovering? && !loop.imageSource && loop.observationDelay == 0 && !loop.forceLaunch
    ensures loop.cleanupDelay == 0
    ensures loop.devices == old(loop.devices) && loop.inventoryFailed == old(loop.inventoryFailed)
  {
    hide Runtime.Tracked, Custody, DriveOk, InventoryOk;
    ResetPhysical(loop);
    SelectPhysical(rt, loop);
    loop.observationDelay := 0;
    loop.cleanupDelay := 0;
    loop.forceLaunch := false;
  }

  method RefreshInventory(rt: Runtime, loop: Loop)
    requires Sound(rt, loop)
    modifies rt`log, rt`ledger, loop`devices, loop`inventoryFailed, loop`inventoryDelay
    ensures Sound(rt, loop) && rt.ledger.live == old(rt.ledger).live
    ensures old(loop.inventoryDelay) > 0 ==>
              && rt.ledger == old(rt.ledger) && loop.devices == old(loop.devices)
              && loop.inventoryDelay == old(loop.inventoryDelay) - 1
    ensures old(loop.inventoryDelay) == 0 ==>
              && |rt.log| == |old(rt.log)| + 1 && rt.log[|old(rt.log)|].Inventoried?
              && rt.log[|old(rt.log)|].enabled
                 == (!rt.media.Owned() && !rt.process && !loop.phase.Preserving? && !loop.phase.Preparing?)
    ensures old(loop.inventoryDelay) > 0 ==> rt.log == old(rt.log)
    ensures Refreshes(old(ViewOf(rt, loop)), ViewOf(rt, loop))
  {
    hide Runtime.Tracked, Custody, DriveOk, InventoryOk;
    if loop.inventoryDelay > 0 {
      loop.inventoryDelay := loop.inventoryDelay - 1;
      return;
    }
    var ok, listed := Refresh(rt, loop.phase, loop.devices, {});
    loop.devices := listed;
    loop.inventoryFailed := !ok;
    loop.inventoryDelay := OBSERVATION_INTERVAL;
  }

  // Retries the pending cleanups when their delay is over.
  method RetryPending(rt: Runtime, loop: Loop)
    requires Sound(rt, loop)
    modifies rt`pending, rt`log, rt`ledger, loop`devices, loop`pendingCleanupDelay
    ensures Sound(rt, loop) && OnlyReleased(old(rt.pending), rt.pending)
    ensures rt.media.open || rt.process || old(loop.pendingCleanupDelay) > 0 ==>
              rt.pending == old(rt.pending) && rt.ledger == old(rt.ledger)
    ensures Retries(old(ViewOf(rt, loop)), ViewOf(rt, loop))
    ensures rt.reliable && !rt.media.open && !rt.process && old(loop.pendingCleanupDelay) == 0 ==>
              forall i :: 0 <= i < |rt.pending| ==> !rt.pending[i].media.Owned()
    ensures loop.pendingCleanupDelay
         == if old(loop.pendingCleanupDelay) == 0 then OBSERVATION_INTERVAL else old(loop.pendingCleanupDelay) - 1
  {
    hide Runtime.Tracked, Custody, DriveOk, PendingFor;
    if loop.pendingCleanupDelay == 0 {
      RetryCleanup(rt);
      loop.devices := Describe(rt, loop.devices);
      loop.pendingCleanupDelay := OBSERVATION_INTERVAL;
    } else {
      loop.pendingCleanupDelay := loop.pendingCleanupDelay - 1;
    }
  }

  // A selection is looked for before and after the inventory.
  method DriveLoopPoll(rt: Runtime, loop: Loop, inputs: Inputs) returns (done: bool)
    requires Sound(rt, loop)
    modifies rt, loop
    ensures Sound(rt, loop) && rt.process == old(rt.process)
    ensures Unsent(rt, loop) && rt.driveOpens == old(rt.driveOpens)
    ensures rt.media.open ==> rt.media == old(rt.media)
    ensures done == EndedByDrives(inputs) && (!done ==> rt.opticalDevice == old(rt.opticalDevice))
    ensures !done ==> rt.media == old(rt.media)
    ensures DriveStep(old(ViewOf(rt, loop)), ViewOf(rt, loop), inputs)
  {
    hide Sound, Runtime.Valid, Selects, Refreshes, Retries, ViewOf;
    var applied := ApplyDriveSelection(rt, loop, inputs.firstSelection);
    if applied {
      return true;
    }
    RefreshInventory(rt, loop);
    ghost var refreshed := ViewOf(rt, loop);
    assert Refreshes(old(ViewOf(rt, loop)), refreshed);
    if inputs.stoppingAfterInventory {
      return true;
    }
    applied := ApplyDriveSelection(rt, loop, inputs.secondSelection);
    if applied {
      return true;
    }
    RetryPending(rt, loop);
    return false;
  }

  // ---------------------------------------------------------------------
  // The cleanup cycle

  // Closes a session that is owned but no longer open; true while one waits.
  // The duty is done exactly when the close reports no error.
  method RunCleanupCycle(rt: Runtime, loop: Loop) returns (waiting: bool)
    requires Sound(rt, loop)
    modifies rt`media, rt`log, rt`ledger
    modifies loop`physical, loop`optical, loop`history, loop`phase, loop`cleanupDelay, loop`observationDelay
    modifies loop`imageSource, loop`backend, loop`imagePath
    ensures Sound(rt, loop) && old(loop.history) <= loop.history
    ensures waiting == Waits(old(rt.media))
    ensures !waiting ==> rt.media == old(rt.media)
    ensures !waiting ==>
              Settles(old(ViewOf(rt, loop)), ViewOf(rt, loop)) && rt.ledger == old(rt.ledger)
    ensures waiting ==> CleanupStep(old(ViewOf(rt, loop)), ViewOf(rt, loop))
    ensures waiting ==> rt.media == old(rt.media) || rt.media == NO_SESSION
    ensures old(loop.cleanupDelay) > 0 && waiting ==> rt.ledger == old(rt.ledger)
    ensures old(loop.cleanupDelay) == 0 && waiting ==> rt.log != old(rt.log)
    ensures old(loop.cleanupDelay) == 0 && waiting && rt.reliable ==>
              rt.media == NO_SESSION && loop.physical == FRESH_PHYSICAL
  {
    hide Runtime.Tracked, Table, PendingHeld, PendingFor, DriveOk, InventoryOk, Run, CleanupStep;
    if rt.media.open || !rt.media.Owned() {
      loop.cleanupDelay := 0;
      return false;
    }
    if loop.cleanupDelay > 0 {
      loop.cleanupDelay := loop.cleanupDelay - 1;
      StillWaiting(old(ViewOf(rt, loop)), ViewOf(rt, loop));
      return true;
    }
    CloseWaitingSession(rt, loop);
    return true;
  }

  lemma StillWaiting(v: View, w: View)
    requires v.delays.cleanup > 0 && w == v.(delays := v.delays.(cleanup := v.delays.cleanup - 1))
    ensures CleanupStep(v, w)
  {
  }

  // One attempt to close the waiting session.
  method CloseWaitingSession(rt: Runtime, loop: Loop)
    requires Sound(rt, loop) && Waits(rt.media) && loop.cleanupDelay == 0
    modifies rt`media, rt`log, rt`ledger
    modifies loop`physical, loop`optical, loop`history, loop`phase, loop`cleanupDelay, loop`observationDelay
    modifies loop`imageSource, loop`backend, loop`imagePath
    ensures Sound(rt, loop) && old(loop.history) <= loop.history
    ensures CleanupStep(old(ViewOf(rt, loop)), ViewOf(rt, loop)) && rt.log != old(rt.log)
    ensures rt.media == old(rt.media) || rt.media == NO_SESSION
    ensures rt.reliable ==> rt.media == NO_SESSION && loop.physical == FRESH_PHYSICAL
  {
    hide Sound, Runtime.Valid, Run, CleansAs, CloseEvents, LookAt, AsksStill, CleanupStep, Permitted, LatchedHere;
    WaitingIsIdle(rt, loop);
    ghost var physical := loop.physical;
    ghost var look := ValidateCleanup(rt, loop);
    var closed := CloseWaiting(rt, loop);
    ghost var afterClose := rt.log;
    AfterClose(rt, loop, closed);
    CleanedAs(old(rt.log), rt.log, old(rt.media), rt.media, closed, physical, look);
    CleanedUp(old(ViewOf(rt, loop)), ViewOf(rt, loop), closed);
  }

  // The duty is done after a clean close; any other is tried again later.
  method AfterClose(rt: Runtime, loop: Loop, closed: bool)
    requires Sound(rt, loop) && (closed ==> !rt.media.Owned())
    requires closed && loop.physical.cleanup.EjectCleanup? ==>
               Permitted(rt.ledger, EjectCompleted(loop.physical.ejectDevice.id, loop.physical.generation))
    modifies rt`log, rt`ledger
    modifies loop`physical, loop`optical, loop`history, loop`phase, loop`cleanupDelay, loop`observationDelay
    modifies loop`imageSource, loop`backend, loop`imagePath
    ensures Sound(rt, loop) && old(loop.history) <= loop.history
    ensures if closed
            then loop.physical == FRESH_PHYSICAL && loop.observationDelay == 0
            else && loop.phase.Attention? && loop.cleanupDelay == OBSERVATION_INTERVAL
                 && loop.physical == old(loop.physical) && loop.optical == old(loop.optical)
                 && loop.history == old(loop.history)
    ensures closed && old(loop.physical).cleanup.Rearm? ==> loop.optical == INITIAL
    ensures closed && old(loop.physical).cleanup.RequireRetry? ==>
              loop.optical == AfterFailure(old(loop.optical), Terminal)
    ensures closed && old(loop.physical).cleanup.NoCleanup? ==> loop.optical == old(loop.optical)
    ensures closed && old(loop.physical).cleanup.EjectCleanup? ==> loop.optical in {INITIAL, BLOCKED}
    ensures rt.log == old(rt.log) + (if closed && old(loop.physical).cleanup.EjectCleanup?
              then [EjectCompleted(old(loop.physical).ejectDevice.id, old(loop.physical).generation)] else [])
  {
    hide Runtime.Tracked, Custody, DriveOk, InventoryOk, Run, Permitted, PhysicalOk, PlaybackOk, AfterFailure;
    if closed {
      loop.observationDelay := 0;
      AfterCleanClose(rt, loop);
    } else {
      loop.phase := Attention;
      loop.cleanupDelay := OBSERVATION_INTERVAL;
    }
  }

  lemma CleanedUp(v: View, w: View, clean: bool)
    requires v.delays.cleanup == 0 && (!clean ==> w.delays.cleanup == 5)
    requires w.issued == v.issued && w.pending == v.pending && w.process == v.process && w.device == v.device
    requires CleansAs(v.log, w.log, v.media, w.media, clean, v.physical) && (v.env.reliable ==> clean)
    requires clean ==>
               && w.media == NO_SESSION && w.physical == FRESH_PHYSICAL && w.observationDelay == 0
               && DutyOf(v.physical, w.log, v.optical, w.optical)
    requires !clean ==> w.phase.Attention? && w.optical == v.optical && w.history == v.history
    ensures CleanupStep(v, w)
  {
    hide CleansAs, DutyOf;
  }

  lemma WaitingIsIdle(rt: Runtime, loop: Loop)
    requires Sound(rt, loop) && Waits(rt.media)
    ensures !rt.process && rt.media.WellFormed()
  {
  }

  lemma CleanedAs(before: seq<Event>, after: seq<Event>, media: Session, left: Session, clean: bool, physical: Physical,
                  look: seq<Event>)
    requires Waits(media) && media.WellFormed()
    requires if physical.cleanup.EjectCleanup? && media.exported.Some? then LookAt(look, media.exported.value)
             else look == []
    requires after == before + look + CloseEvents(media, left, clean)
                      + (if && clean && physical.cleanup.EjectCleanup? && media.exported.Some?
                            && AsksStill(look, media.exported.value, physical.generation)
                         then [EjectCompleted(physical.ejectDevice.id, physical.generation)] else [])
    ensures CleansAs(before, after, media, left, clean, physical) && after != before
  {
    assert |after| > |before|;
  }

  method AfterCleanClose(rt: Runtime, loop: Loop)
    requires Sound(rt, loop) && !rt.media.Owned()
    requires loop.physical.cleanup.EjectCleanup? ==>
               Permitted(rt.ledger, EjectCompleted(loop.physical.ejectDevice.id, loop.physical.generation))
    modifies rt`log, rt`ledger, loop`physical, loop`optical, loop`history, loop`phase
    modifies loop`imageSource, loop`backend, loop`imagePath
    ensures Sound(rt, loop) && old(loop.history) <= loop.history && loop.physical == FRESH_PHYSICAL
    ensures old(loop.physical).cleanup.Rearm? ==> loop.optical == INITIAL
    ensures old(loop.physical).cleanup.RequireRetry? ==> loop.optical == AfterFailure(old(loop.optical), Terminal)
    ensures old(loop.physical).cleanup.NoCleanup? ==> loop.optical == old(loop.optical)
    ensures old(loop.physical).cleanup.EjectCleanup? ==> loop.optical in {INITIAL, BLOCKED}
    ensures rt.log == old(rt.log) + (if old(loop.physical).cleanup.EjectCleanup?
              then [EjectCompleted(old(loop.physical).ejectDevice.id, old(loop.physical).generation)] else [])
  {
    hide Runtime.Tracked, Custody, DriveOk, InventoryOk, Run, Permitted;
    if !loop.imageSource {
      ResetMediaSnapshot(loop, false);
      loop.phase := Empty;
    }
    CleanupCompleted(rt, loop);
  }

  // Closes the waiting session right after its eject request was validated.
  method CloseWaiting(rt: Runtime, loop: Loop) returns (closed: bool)
    requires Sound(rt, loop) && !rt.process && rt.media.Owned() && !rt.media.open
    requires loop.physical.cleanup.EjectCleanup? ==>
               && LatchedHere(loop.physical, rt.media, rt.ledger.latches)
               && rt.ledger.authorised == Some(Sighting(rt.media.exported.value, loop.physical.generation))
    modifies rt`media, rt`log, rt`ledger
    ensures Sound(rt, loop)
    ensures rt.media == old(rt.media) || rt.media == NO_SESSION
    ensures closed ==> rt.media == NO_SESSION
    ensures rt.log == old(rt.log) + CloseEvents(old(rt.media), rt.media, closed)
    ensures rt.reliable ==> closed
    ensures closed && loop.physical.cleanup.EjectCleanup? ==>
              Permitted(rt.ledger, EjectCompleted(loop.physical.ejectDevice.id, loop.physical.generation))
  {
    hide Runtime.Tracked, Table, PendingHeld, PendingFor, DriveOk, InventoryOk;
    assert rt.media.WellFormed();
    closed := CloseMedia(rt, {});
  }

  // ---------------------------------------------------------------------
  // The idle and the active cycle

  // The drive shows a problem; a pending failure keeps what is shown.
  method ShowMissing(loop: Loop)
    modifies loop`phase, loop`imageSource, loop`backend, loop`imagePath
    ensures loop.imageSource ==> old(loop.imageSource)
    ensures loop.optical.commandRequired || loop.optical.failures != 0 ==>
              loop.phase == old(loop.phase) && loop.backend == old(loop.backend)
  {
    if loop.optical.commandRequired || loop.optical.failures != 0 {
      return;
    }
    if loop.backend.NoBackend? {
      ResetMediaSnapshot(loop, false);
      loop.phase := Empty;
    } else {
      loop.phase := Attention;
    }
  }

  method NotResolved(rt: Runtime, loop: Loop)
    requires Sound(rt, loop) && !rt.media.Owned()
    modifies rt`driveKnown, loop
    ensures Sound(rt, loop) && loop.history == old(loop.history) + [Unobserved]
    ensures Attempts(INITIAL, loop.history) == Attempts(INITIAL, old(loop.history))
    ensures loop.observationDelay == old(loop.observationDelay) && !rt.process
  {
    hide Runtime.Tracked, Custody, DriveOk, InventoryOk, Run, Attempts;
    loop.Tell(Unobserved);
    rt.driveKnown := false;
    ShowMissing(loop);
  }

  // Looks at the current drive and opens its medium once it has been steady.
  // A drive is opened, successfully or not, only when the monitor has been
  // shown its medium four times in a row. A resolved drive is always present,
  // so the branch of the original for an absent one cannot be taken.
  method ObserveAvailable(rt: Runtime, loop: Loop, selected: string, autoStart: bool)
    requires Sound(rt, loop) && !rt.media.Owned() && loop.physical.cleanup.NoCleanup?
    modifies rt, loop
    ensures Sound(rt, loop) && rt.pending == old(rt.pending) && Unsent(rt, loop) && old(rt.log) <= rt.log
    ensures loop.observationDelay == old(loop.observationDelay)
    ensures var told := old(loop.history) + (if rt.opticalDevice.id == old(rt.opticalDevice).id then [] else [Retried]);
            var seen := PresenceOf(rt.opticalDevice);
            rt.acquired != old(rt.acquired) || rt.driveOpens != old(rt.driveOpens) ==>
              && StartsAttempt(Run(INITIAL, told), seen)
              && SteadyObservations(told + [Step.Observed(seen)]) >= 4
    ensures rt.driveOpens - old(rt.driveOpens)
         <= Attempts(INITIAL, loop.history) - Attempts(INITIAL, old(loop.history)) <= 1
    ensures rt.media.open ==>
              && !PendingFor(rt.pending, rt.opticalDevice.id)
              && rt.media.exported == Some(Handle(old(rt.acquired), Drive(rt.opticalDevice.id)))
    ensures rt.process ==> rt.media.open && (autoStart || old(loop.forceLaunch))
    ensures Observes(old(ViewOf(rt, loop)), ViewOf(rt, loop), selected, autoStart)
  {
    hide Runtime.Tracked, Custody, DriveOk, InventoryOk, PendingFor, DriveAvailable, Looks, Observes;
    hide Best, Preferred, FirstListed, Listed, ChosenDrive;
    hide Run, Attempts, SteadyObservations, StartsAttempt, AfterObservation;
    var previous := rt.opticalDevice.id;
    var ok, presence := Resolve(rt, loop.devices, loop.inventoryFailed, selected);
    if !ok {
      NotResolved(rt, loop);
      ObservesNothing(old(ViewOf(rt, loop)), ViewOf(rt, loop), selected, autoStart);
      return;
    }
    ghost var resolved := ViewOf(rt, loop);
    ObserveResolved(rt, loop, previous, presence, autoStart);
    ObservesDrive(old(ViewOf(rt, loop)), resolved, ViewOf(rt, loop), presence, selected, autoStart);
  }

  // A drive that is not the one looked at before is looked at afresh.
  method ObserveResolved(rt: Runtime, loop: Loop, previous: string, presence: Presence, autoStart: bool)
    requires Sound(rt, loop) && !rt.media.Owned() && loop.physical.cleanup.NoCleanup?
    requires !PendingFor(rt.pending, rt.opticalDevice.id)
    modifies rt, loop
    ensures Sound(rt, loop) && rt.pending == old(rt.pending) && Unsent(rt, loop) && old(rt.log) <= rt.log
    ensures loop.observationDelay == old(loop.observationDelay) && rt.opticalDevice == old(rt.opticalDevice)
    ensures var told := old(loop.history) + (if rt.opticalDevice.id == previous then [] else [Retried]);
            && (rt.acquired != old(rt.acquired) || rt.driveOpens != old(rt.driveOpens) ==>
                  && StartsAttempt(Run(INITIAL, told), presence)
                  && SteadyObservations(told + [Step.Observed(presence)]) >= 4)
            && Looks(old(ViewOf(rt, loop)).(history := told, optical := Run(INITIAL, told)), ViewOf(rt, loop), presence,
                     autoStart || old(loop.forceLaunch))
    ensures rt.driveOpens - old(rt.driveOpens)
         <= Attempts(INITIAL, loop.history) - Attempts(INITIAL, old(loop.history)) <= 1
    ensures rt.media.open ==> rt.media.exported == Some(Handle(old(rt.acquired), Drive(rt.opticalDevice.id)))
    ensures rt.process ==> rt.media.open && (autoStart || old(loop.forceLaunch))
  {
    hide Runtime.Tracked, Custody, DriveOk, InventoryOk, PendingFor, PhysicalOk, PlaybackOk, Looks;
    hide Run, Attempts, SteadyObservations, StartsAttempt, AfterObservation;
    if previous != rt.opticalDevice.id {
      loop.Tell(Retried);
    }
    assert old(loop.history) + [] == old(loop.history);
    loop.unavailableChecks := 0;
    rt.driveKnown := rt.opticalDevice.supported;
    ObservePresent(rt, loop, presence, autoStart);
  }

  lemma ObservesNothing(v: View, w: View, selected: string, autoStart: bool)
    requires !DriveAvailable(v.devices, v.inventoryFailed, selected)
    requires w.history == v.history + [Unobserved] && w.log == v.log && !w.media.Owned() && !w.process
    ensures Observes(v, w, selected, autoStart)
  {
  }

  lemma ObservesDrive(v: View, m: View, w: View, presence: Presence, selected: string, autoStart: bool)
    requires DriveAvailable(v.devices, v.inventoryFailed, selected)
    requires ChosenDrive(v.devices, v.device.id, selected, m.device)
    requires m == v.(device := m.device) && w.device == m.device
    requires presence == Presence(true, m.device.mediaKnown, m.device.mediaPresent)
    requires var told := v.history + (if m.device.id == v.device.id then [] else [Retried]);
             Looks(m.(history := told, optical := Run(INITIAL, told)), w, presence, autoStart || v.forceLaunch)
    ensures Observes(v, w, selected, autoStart)
  {
    hide Looks, DriveAvailable, ChosenDrive, Run;
    var told := v.history + (if m.device.id == v.device.id then [] else [Retried]);
    assert m.(history := told, optical := Run(INITIAL, told))
        == v.(device := w.device, history := told, optical := Run(INITIAL, told));
  }

  method ObservePresent(rt: Runtime, loop: Loop, presence: Presence, autoStart: bool)
    requires Sound(rt, loop) && !rt.media.Owned() && loop.physical.cleanup.NoCleanup?
    requires !PendingFor(rt.pending, rt.opticalDevice.id)
    modifies rt, loop
    ensures Sound(rt, loop) && rt.pending == old(rt.pending) && rt.opticalDevice == old(rt.opticalDevice)
    ensures Unsent(rt, loop) && old(rt.log) <= rt.log
    ensures loop.observationDelay == old(loop.observationDelay)
    ensures rt.acquired != old(rt.acquired) || rt.driveOpens != old(rt.driveOpens) ==>
              && StartsAttempt(old(loop.optical), presence)
              && SteadyObservations(old(loop.history) + [Step.Observed(presence)]) >= 4
    ensures rt.driveOpens - old(rt.driveOpens)
         <= Attempts(INITIAL, loop.history) - Attempts(INITIAL, old(loop.history)) <= 1
    ensures rt.media.open ==>
              rt.media.exported == Some(Handle(old(rt.acquired), Drive(rt.opticalDevice.id)))
    ensures rt.process ==> rt.media.open && (autoStart || old(loop.forceLaunch))
    ensures Looks(old(ViewOf(rt, loop)), ViewOf(rt, loop), presence, autoStart || old(loop.forceLaunch))
  {
    hide Runtime.Tracked, Custody, DriveOk, InventoryOk, PendingFor, Tries;
    hide Run, Attempts, SteadyObservations, StartsAttempt, AfterObservation;
    if StartsAttempt(loop.optical, presence) {
      SteadyBefore(loop, presence);
    }
    AbsentStartsNothing(loop.optical, presence);
    var attempt := loop.Look(presence);
    if presence.Absent() {
      if !loop.optical.commandRequired && loop.optical.failures == 0 {
        ResetMediaSnapshot(loop, false);
        loop.phase := Empty;
      }
    } else if attempt {
      Attempt(rt, loop, autoStart);
    } else if loop.optical.attemptPermitted {
      loop.phase := Discovering;
    }
  }

  lemma AbsentStartsNothing(m: OpticalMonitors.State, presence: Presence)
    ensures presence.Absent() ==> !StartsAttempt(m, presence)
  {
  }

  lemma SteadyBefore(loop: Loop, presence: Presence)
    requires loop.Followed() && StartsAttempt(loop.optical, presence)
    ensures SteadyObservations(loop.history + [Step.Observed(presence)]) >= 4
  {
    AttemptNeedsSteadyMedium(loop.history, presence);
  }

  // One automatic attempt, whose failure the monitor is told of.
  method Attempt(rt: Runtime, loop: Loop, autoStart: bool)
    requires Sound(rt, loop) && !rt.media.Owned() && loop.physical.cleanup.NoCleanup?
    requires !PendingFor(rt.pending, rt.opticalDevice.id)
    modifies rt, loop
    ensures Sound(rt, loop) && rt.pending == old(rt.pending) && rt.opticalDevice == old(rt.opticalDevice)
    ensures Unsent(rt, loop) && rt.driveOpens <= old(rt.driveOpens) + 1
    ensures Attempts(INITIAL, loop.history) == Attempts(INITIAL, old(loop.history))
    ensures rt.media.open ==> rt.media.exported == Some(Handle(old(rt.acquired), Drive(rt.opticalDevice.id)))
    ensures rt.media.open ==> loop.optical == old(loop.optical)
    ensures !rt.media.open ==>
              loop.optical in {AfterFailure(old(loop.optical), Transient), AfterFailure(old(loop.optical), Terminal)}
    ensures rt.process ==> rt.media.open && (autoStart || old(loop.forceLaunch))
    ensures rt.media.open ==> !loop.forceLaunch
    ensures old(rt.log) <= rt.log && loop.observationDelay == old(loop.observationDelay)
    ensures Tries(old(ViewOf(rt, loop)), ViewOf(rt, loop), autoStart || old(loop.forceLaunch))
  {
    hide Sound, Runtime.Valid, Run, Attempts, OpenedAndStarted, NeedsXenia, ShowsPrepared, AfterFailure, PendingFor;
    ghost var state, code;
    var result;
    result, state, code := PrepareLive(rt, loop, loop.forceLaunch || autoStart);
    NoteResult(rt, loop, result);
  }

  // The monitor is told of a failure. The wish to launch lasts only while the
  // failure may go away.
  method NoteResult(rt: Runtime, loop: Loop, result: LiveResult)
    requires Sound(rt, loop)
    modifies loop`optical, loop`history, loop`forceLaunch
    ensures Sound(rt, loop)
    ensures loop.history == old(loop.history) + (if result.Prepared? then []
              else if result.RetryableFailure? then [Failed(Transient)] else [Failed(Terminal)])
    ensures loop.optical == if result.Prepared? then old(loop.optical)
              else AfterFailure(old(loop.optical), if result.RetryableFailure? then Transient else Terminal)
    ensures loop.forceLaunch == (old(loop.forceLaunch) && result.RetryableFailure?)
    ensures Attempts(INITIAL, loop.history) == Attempts(INITIAL, old(loop.history))
  {
    hide Runtime.Tracked, Custody, DriveOk, InventoryOk, Attempts, Run, PhysicalOk, PlaybackOk;
    if !result.Prepared? {
      loop.Tell(Failed(if result.RetryableFailure? then Transient else Terminal));
    }
    if !result.RetryableFailure? {
      loop.forceLaunch := false;
    }
  }

  method RunIdleCycle(rt: Runtime, loop: Loop, inputs: Inputs)
    requires Sound(rt, loop) && !rt.media.Owned() && loop.physical.cleanup.NoCleanup?
    modifies rt, loop
    ensures Sound(rt, loop) && rt.pending == old(rt.pending) && Unsent(rt, loop)
    ensures rt.driveOpens - old(rt.driveOpens)
         <= Attempts(INITIAL, loop.history) - Attempts(INITIAL, old(loop.history)) <= 1
    ensures old(loop.imageSource) || old(rt.preservationHold) || old(loop.observationDelay) > 0 ==>
              rt.media == old(rt.media) && rt.ledger == old(rt.ledger)
    ensures IdleStep(old(ViewOf(rt, loop)), ViewOf(rt, loop), inputs)
  {
    hide Runtime.Tracked, Custody, DriveOk, InventoryOk, PendingFor, Run, Observes;
    if loop.imageSource || rt.preservationHold {
      return;
    }
    if loop.observationDelay > 0 {
      loop.observationDelay := loop.observationDelay - 1;
      return;
    }
    ObserveAvailable(rt, loop, inputs.selectedDrive, inputs.autoStart);
    ghost var observed := ViewOf(rt, loop);
    loop.observationDelay := OBSERVATION_INTERVAL;
    assert ViewOf(rt, loop).(observationDelay := 0) == observed;
  }

  method PollPlayback(rt: Runtime, loop: Loop)
    requires Sound(rt, loop)
    modifies rt`owner, rt`process, rt`storage, rt`log, rt`ledger, loop`phase
    ensures Sound(rt, loop) && rt.ledger.live == old(rt.ledger).live
    ensures !old(rt.process) ==> !rt.process && rt.ledger == old(rt.ledger) && loop.phase == old(loop.phase)
    ensures PlaybackPolled(old(ViewOf(rt, loop)), ViewOf(rt, loop))
  {
    hide Runtime.Tracked, Custody, DriveOk, InventoryOk, Run;
    if !rt.process {
      return;
    }
    var ok, running := PlaybackPoll(rt);
    if !ok {
      loop.phase := Attention;
      return;
    }
    if running {
      return;
    }
    loop.phase := Ready;
  }

  method RunActiveCycle(rt: Runtime, loop: Loop, inputs: Inputs)
    requires Sound(rt, loop) && rt.media.open
    modifies rt, loop
    ensures Sound(rt, loop) && rt.pending == old(rt.pending) && Unsent(rt, loop) && rt.driveOpens == old(rt.driveOpens)
    ensures rt.media == old(rt.media) || ClosedTo(old(rt.media), rt.media)
    ensures old(rt.media).image ==> rt.media == old(rt.media) && loop.physical == FRESH_PHYSICAL
    ensures ActiveStep(old(ViewOf(rt, loop)), ViewOf(rt, loop), inputs)
  {
    hide Sound, Runtime.Valid, Run, SessionStep, PlaybackPolled, ClosedTo, ViewOf;
    PollPlayback(rt, loop);
    ghost var p := ViewOf(rt, loop);
    assert PlaybackPolled(old(ViewOf(rt, loop)), p);
    LookAfterSession(rt, loop, inputs);
  }

  method LookAfterSession(rt: Runtime, loop: Loop, inputs: Inputs)
    requires Sound(rt, loop) && rt.media.open
    modifies rt, loop
    ensures Sound(rt, loop) && rt.pending == old(rt.pending) && Unsent(rt, loop) && rt.driveOpens == old(rt.driveOpens)
    ensures rt.media == old(rt.media) || ClosedTo(old(rt.media), rt.media)
    ensures old(rt.media).image ==> rt.media == old(rt.media) && loop.physical == FRESH_PHYSICAL
    ensures SessionStep(old(ViewOf(rt, loop)), ViewOf(rt, loop), inputs)
  {
    hide Sound, Runtime.Valid, Run, SessionStep, ClosedTo, ViewOf;
    ShownSource(rt, loop);
    var physical := !loop.imageSource;
    if physical {
      var ended := WatchSession(rt, loop, inputs);
      if ended {
        return;
      }
    } else {
      ResetWatch(rt, loop, inputs);
    }
    CountStatistics(rt, loop, physical);
  }

  lemma ShownSource(rt: Runtime, loop: Loop)
    requires Sound(rt, loop) && rt.media.open
    ensures loop.imageSource == rt.media.image
  {
  }

  // An image is not watched, but its export may have failed.
  method ResetWatch(rt: Runtime, loop: Loop, inputs: Inputs)
    requires Sound(rt, loop) && rt.media.open && rt.media.image
    modifies loop`physical, loop`phase
    ensures Sound(rt, loop) && loop.physical == FRESH_PHYSICAL
    ensures SessionStep(old(ViewOf(rt, loop)), ViewOf(rt, loop), inputs)
  {
    hide Runtime.Tracked, Custody, DriveOk, InventoryOk, Run, WatchStep;
    ResetPhysical(loop);
    FreshIsOk(rt.media, rt.ledger.latches);
    if rt.media.exported.Some? && inputs.exportFailed {
      loop.phase := Attention;
    }
  }

  // The watch over an open physical session.
  method WatchSession(rt: Runtime, loop: Loop, inputs: Inputs) returns (ended: bool)
    requires Sound(rt, loop) && rt.media.open && !rt.media.image
    modifies rt`owner, rt`process, rt`storage, rt`terminalFailed, rt`media, rt`log, rt`ledger
    modifies loop`phase, loop`backend, loop`imagePath, loop`imageSource, loop`optical, loop`history
    modifies loop`physical, loop`observationDelay
    ensures Sound(rt, loop) && old(loop.history) <= loop.history
    ensures rt.media == old(rt.media) || ClosedTo(old(rt.media), rt.media)
    ensures SessionStep(old(ViewOf(rt, loop)), ViewOf(rt, loop), inputs)
  {
    hide Runtime.Tracked, Table, PendingHeld, PendingFor, DriveOk, InventoryOk, Run, EndsAs, Watches;
    assert rt.media.WellFormed();
    ended := Poll(rt, loop, inputs.sessionFailed, inputs.statusKnown, inputs.connected);
  }

  // The read statistics are shown at intervals.
  method CountStatistics(rt: Runtime, loop: Loop, physical: bool)
    requires Sound(rt, loop)
    modifies loop`readStatsDelay
    ensures Sound(rt, loop) && ViewOf(rt, loop) == old(ViewOf(rt, loop))
    ensures loop.readStatsDelay
         == if !physical then old(loop.readStatsDelay)
            else if old(loop.readStatsDelay) == 0 then READ_STATS_INTERVAL else old(loop.readStatsDelay) - 1
  {
    if physical && loop.readStatsDelay == 0 {
      loop.readStatsDelay := READ_STATS_INTERVAL;
    } else if physical {
      loop.readStatsDelay := loop.readStatsDelay - 1;
    }
  }

  // ---------------------------------------------------------------------
  // One cycle

  // Setup, failed saves and stopping end the cycle before any medium is
  // touched, and a session that waits to be closed comes before every request.
  method RunCycle(rt: Runtime, loop: Loop, inputs: Inputs)
    requires Sound(rt, loop)
    modifies rt, loop
    ensures Sound(rt, loop)
    ensures CycleStep(old(ViewOf(rt, loop)), ViewOf(rt, loop), inputs)
    ensures old(rt.media).Owned() && !old(rt.media).open ==> !rt.media.open && !rt.process
    ensures old(loop.history) <= loop.history
    ensures rt.driveOpens - old(rt.driveOpens)
         <= Attempts(INITIAL, loop.history) - Attempts(INITIAL, old(loop.history))
            + (if inputs.request.kind.Preserve? then 1 else 0)
    ensures || rt.issued == old(rt.issued)
            || (&& inputs.request.kind.Eject? && old(rt.opticalDevice).id != ""
                && rt.issued == old(rt.issued) + [Ejection(old(rt.opticalDevice).id, PendingHeld(rt.pending))])
    ensures old(rt.log) <= rt.log
    ensures inputs.stoppingAfterInventory || inputs.stoppingAfterDrives || inputs.stoppingAfterCleanup ==>
              rt.issued == old(rt.issued) && rt.driveOpens == old(rt.driveOpens)
    ensures inputs.firstSelection.Some? && rt.media.open ==> rt.media == old(rt.media)
    ensures Reaches(old(ViewOf(rt, loop)), inputs) && inputs.request.kind.Eject? && !old(rt.media).Owned()
            && !old(loop.imageSource) && old(rt.opticalDevice).id != "" ==>
              rt.issued == old(rt.issued) + [Ejection(old(rt.opticalDevice).id, PendingHeld(rt.pending))]
  {
    hide Sound, Runtime.Valid, PendingHeld, Run, Attempts, DriveStep, MediaStep;
    StartCycle(rt, loop);
    if !rt.media.open {
      NothingPlays(rt, loop);
    }
    if inputs.busyWithSetup {
      return;
    }
    if inputs.flushFailed {
      ShowAttention(rt, loop);
      return;
    }
    if inputs.stopping {
      return;
    }
    RunMediaCycle(rt, loop, inputs);
    Grown(rt, loop);
    if Reaches(old(ViewOf(rt, loop)), inputs) && inputs.request.kind.Eject? && !old(rt.media).Owned()
      && !old(loop.imageSource) && old(rt.opticalDevice).id != ""
    {
      EjectIsSent(old(ViewOf(rt, loop)), ViewOf(rt, loop), inputs);
    }
  }

  ghost method StartCycle(rt: Runtime, loop: Loop)
    requires Sound(rt, loop)
    modifies rt`begun
    ensures Sound(rt, loop) && rt.begun == rt.log
  {
    hide Custody, DriveOk, Legal, Replay, Ejections, DriveOpens, InventoryOk, PhysicalOk;
    rt.Begin();
  }

  lemma Grown(rt: Runtime, loop: Loop)
    requires Sound(rt, loop)
    ensures rt.begun <= rt.log
  {
    GrownSinceBegun(rt);
  }

  lemma NothingPlays(rt: Runtime, loop: Loop)
    requires Sound(rt, loop) && !rt.media.open
    ensures !rt.process
  {
  }

  // The part of a cycle that may touch media.
  method RunMediaCycle(rt: Runtime, loop: Loop, inputs: Inputs)
    requires Sound(rt, loop) && !inputs.busyWithSetup && !inputs.flushFailed && !inputs.stopping
    modifies rt, loop
    ensures Sound(rt, loop) && rt.begun == old(rt.begun)
    ensures CycleStep(old(ViewOf(rt, loop)), ViewOf(rt, loop), inputs)
    ensures Waits(old(rt.media)) ==> !rt.media.open && !rt.process
    ensures old(loop.history) <= loop.history
    ensures rt.driveOpens - old(rt.driveOpens)
         <= Attempts(INITIAL, loop.history) - Attempts(INITIAL, old(loop.history))
            + (if inputs.request.kind.Preserve? then 1 else 0)
    ensures || rt.issued == old(rt.issued)
            || (&& inputs.request.kind.Eject? && old(rt.opticalDevice).id != ""
                && rt.issued == old(rt.issued) + [Ejection(old(rt.opticalDevice).id, PendingHeld(rt.pending))])
    ensures inputs.stoppingAfterInventory || inputs.stoppingAfterDrives || inputs.stoppingAfterCleanup ==>
              rt.issued == old(rt.issued) && rt.driveOpens == old(rt.driveOpens)
    ensures inputs.firstSelection.Some? && rt.media.open ==> rt.media == old(rt.media)
  {
    hide Sound, Runtime.Valid, PendingHeld, Run, Attempts, DriveStep, MediaStep;
    var done := DriveLoopPoll(rt, loop, inputs);
    if !rt.media.open {
      NothingPlays(rt, loop);
    }
    ghost var d := ViewOf(rt, loop);
    assert DriveStep(old(ViewOf(rt, loop)), d, inputs);
    AttemptsGrow(old(loop.history), loop.history);
    if done || inputs.stoppingAfterDrives {
      return;
    }
    RunHeldCycle(rt, loop, inputs);
  }

  // A session that waits to be closed comes before every request.
  method RunHeldCycle(rt: Runtime, loop: Loop, inputs: Inputs)
    requires Sound(rt, loop)
    modifies rt, loop
    ensures Sound(rt, loop) && rt.begun == old(rt.begun) && rt.pending == old(rt.pending)
    ensures MediaStep(old(ViewOf(rt, loop)), ViewOf(rt, loop), inputs)
    ensures Waits(old(rt.media)) ==> !rt.media.open && !rt.process
    ensures old(loop.history) <= loop.history
    ensures rt.driveOpens - old(rt.driveOpens)
         <= Attempts(INITIAL, loop.history) - Attempts(INITIAL, old(loop.history))
            + (if inputs.request.kind.Preserve? then 1 else 0)
    ensures || rt.issued == old(rt.issued)
            || (&& inputs.request.kind.Eject? && old(rt.opticalDevice).id != ""
                && rt.issued == old(rt.issued) + [Ejection(old(rt.opticalDevice).id, PendingHeld(rt.pending))])
    ensures inputs.stoppingAfterCleanup ==> rt.issued == old(rt.issued) && rt.driveOpens == old(rt.driveOpens)
  {
    hide Sound, Runtime.Valid, PendingHeld, Run, Attempts, CleanupStep, OwnedStep, Settles;
    var waiting := RunCleanupCycle(rt, loop);
    ghost var settled := ViewOf(rt, loop);
    assert !waiting ==> Settles(old(ViewOf(rt, loop)), settled);
    if !rt.media.open {
      NothingPlays(rt, loop);
    }
    AttemptsGrow(old(loop.history), loop.history);
    if waiting || inputs.stoppingAfterCleanup {
      return;
    }
    RunOwnedCycle(rt, loop, inputs);
  }

  // The rest of a cycle, when no session waits to be closed.
  method RunOwnedCycle(rt: Runtime, loop: Loop, inputs: Inputs)
    requires Sound(rt, loop) && (rt.media.Owned() ==> rt.media.open)
    modifies rt, loop
    ensures Sound(rt, loop) && rt.pending == old(rt.pending)
    ensures OwnedStep(old(ViewOf(rt, loop)), ViewOf(rt, loop), inputs)
    ensures old(loop.history) <= loop.history && rt.begun == old(rt.begun)
    ensures rt.driveOpens - old(rt.driveOpens)
         <= Attempts(INITIAL, loop.history) - Attempts(INITIAL, old(loop.history))
            + (if inputs.request.kind.Preserve? then 1 else 0)
    ensures || rt.issued == old(rt.issued)
            || (&& inputs.request.kind.Eject? && old(rt.opticalDevice).id != ""
                && rt.issued == old(rt.issued) + [Ejection(old(rt.opticalDevice).id, PendingHeld(rt.pending))])
  {
    hide Runtime.Tracked, Custody, DriveOk, InventoryOk, PhysicalOk, PendingFor, PendingHeld, Run, Attempts;
    hide Effect, ActiveStep, IdleStep;
    if RuntimeCommands.IsSetup(inputs.request.kind) {
      return;
    }
    var handled := Execute(rt, loop, inputs.request);
    ghost var e := ViewOf(rt, loop);
    assert Effect(old(ViewOf(rt, loop)), e, inputs.request, handled);
    AttemptsGrow(old(loop.history), loop.history);
    if handled {
      return;
    }
    if !rt.media.open {
      ResetPhysical(loop);
      FreshIsOk(rt.media, rt.ledger.latches);
      RunIdleCycle(rt, loop, inputs);
    } else {
      ghost var before := loop.history;
      RunActiveCycle(rt, loop, inputs);
      AttemptsGrow(before, loop.history);
    }
  }

  lemma FreshIsOk(media: Session, latches: set<Sighting>)
    ensures PhysicalOk(FRESH_PHYSICAL, media, latches)
  {
  }

  // ---------------------------------------------------------------------
  // The final cleanup and the whole run

  // The cleanup of Xenia storage waits for the process slot.
  method XeniaCleanup(rt: Runtime) returns (ok: bool)
    requires !rt.process
    modifies rt`storage
    ensures ok <==> !rt.storage
    ensures rt.reliable ==> ok
  {
    ok := CloseStorage(rt);
  }

  // Nothing is left to restore.
  ghost predicate AllReleased(rt: Runtime)
    reads rt
  {
    && !rt.process && rt.owner.NoOwner? && !rt.storage && !rt.media.Owned()
    && (forall i :: 0 <= i < |rt.pending| ==> !rt.pending[i].media.Owned())
    && rt.ledger.live == {}
  }

  // The forced flush of the settings, whose failure is noted.
  method FlushOnce(rt: Runtime) returns (ghost flushed: bool, ghost saved: bool)
    modifies rt`flushAttempted, rt`terminalFailed
    ensures rt.flushAttempted && flushed == !old(rt.flushAttempted)
    ensures rt.terminalFailed == (old(rt.terminalFailed) || (flushed && !saved))
    ensures rt.reliable && flushed ==> saved
  {
    flushed, saved := false, false;
    if !rt.flushAttempted {
      rt.flushAttempted := true;
      var written := Attempted(rt);
      if !written && !rt.terminalFailed {
        rt.terminalFailed := true;
      }
      flushed, saved := true, written;
    }
  }

  // True exactly when nothing is owned any more. The settings are flushed on
  // the first call only; `saved` is the outcome of that.
  method Cleanup(rt: Runtime) returns (ok: bool, ghost flushed: bool, ghost saved: bool)
    requires rt.Valid({})
    modifies rt`flushAttempted, rt`terminalFailed, rt`owner, rt`process, rt`storage
    modifies rt`media, rt`pending, rt`log, rt`begun, rt`ledger
    ensures rt.Valid({}) && rt.flushAttempted && old(rt.log) <= rt.log
    ensures flushed == !old(rt.flushAttempted)
    ensures ok <==> AllReleased(rt)
    ensures old(rt.terminalFailed) || (flushed && !saved) ==> rt.terminalFailed
    ensures !old(rt.process) && (!flushed || saved) ==> rt.terminalFailed == old(rt.terminalFailed)
    ensures rt.reliable ==> ok && rt.terminalFailed == old(rt.terminalFailed)
  {
    hide Runtime.Tracked, Custody, DriveOk, Run;
    rt.Begin();
    flushed, saved := FlushOnce(rt);
    var owner := rt.owner;
    var stopped := PlaybackShutdown(rt);
    if !stopped && !rt.process && (owner.XemuOwner? || (owner.XeniaOwner? && !rt.storage)) {
      rt.terminalFailed := true;
    }
    ok := false;
    if !rt.process {
      var cleaned := XeniaCleanup(rt);
      if cleaned {
        ok := ReleaseAll(rt);
      }
    }
    GrownSinceBegun(rt);
  }

  // Closes the session and then every pending cleanup.
  method ReleaseAll(rt: Runtime) returns (ok: bool)
    requires rt.Valid({}) && !rt.process && !rt.storage
    modifies rt`media, rt`pending, rt`log, rt`ledger
    ensures rt.Valid({}) && (ok <==> AllReleased(rt))
    ensures rt.reliable ==> ok
  {
    hide Runtime.Tracked, Table, PendingFor, DriveOk;
    if rt.media.Owned() {
      var closed := CloseMedia(rt, {});
      if !closed && rt.media.Owned() {
        return false;
      }
    }
    ok := ClosePendingAll(rt);
    if ok {
      NothingPending(rt.pending);
    }
  }

  // How many of the cycles are given a request of that kind.
  function Asked(cycles: seq<Inputs>, kind: RuntimeCommands.Kind): nat {
    if cycles == [] then 0
    else
      var last := cycles[|cycles| - 1];
      Asked(cycles[..|cycles| - 1], kind) + (if last.request.kind == kind then 1 else 0)
  }

  lemma AskedNext(cycles: seq<Inputs>, index: nat, kind: RuntimeCommands.Kind)
    requires index < |cycles|
    ensures Asked(cycles[..index + 1], kind)
         == Asked(cycles[..index], kind) + (if cycles[index].request.kind == kind then 1 else 0)
  {
    assert cycles[..index + 1][..index] == cycles[..index];
  }

  // Any number of cycles. No more ejects are sent than were asked for, and no
  // drive is opened, even in vain, but for an automatic attempt of the monitor
  // or a requested preservation. So without such requests a drive is opened at
  // most three times before the monitor is reset.
  method RunCycles(rt: Runtime, loop: Loop, cycles: seq<Inputs>) returns (ghost trace: seq<View>)
    requires Sound(rt, loop)
    modifies rt, loop
    ensures Cycles(trace, cycles) && trace[0] == old(ViewOf(rt, loop)) && trace[|cycles|] == ViewOf(rt, loop)
    ensures Sound(rt, loop) && old(loop.history) <= loop.history
    ensures old(rt.issued) <= rt.issued && old(rt.log) <= rt.log
    ensures |rt.issued| <= |old(rt.issued)| + Asked(cycles, RuntimeCommands.Eject)
    ensures rt.driveOpens - old(rt.driveOpens)
         <= Attempts(INITIAL, loop.history) - Attempts(INITIAL, old(loop.history))
            + Asked(cycles, RuntimeCommands.Preserve)
    ensures ResetFree(old(loop.history), loop.history[|old(loop.history)|..]) ==>
              rt.driveOpens <= old(rt.driveOpens) + 3 + Asked(cycles, RuntimeCommands.Preserve)
  {
    hide Runtime.Tracked, Custody, DriveOk, InventoryOk, PhysicalOk, PendingFor, PendingHeld, Run, Attempts, Asked;
    hide CycleStep;
    trace := [ViewOf(rt, loop)];
    assert Asked(cycles[..0], RuntimeCommands.Eject) == 0 == Asked(cycles[..0], RuntimeCommands.Preserve) by {
      NothingAsked();
    }
    for index := 0 to |cycles|
      invariant Sound(rt, loop) && old(loop.history) <= loop.history
      invariant |trace| == index + 1 && trace[0] == old(ViewOf(rt, loop)) && trace[index] == ViewOf(rt, loop)
      invariant forall k :: 0 <= k < index ==> CycleStep(trace[k], trace[k + 1], cycles[k])
      invariant old(rt.issued) <= rt.issued && old(rt.log) <= rt.log
      invariant |rt.issued| <= |old(rt.issued)| + Asked(cycles[..index], RuntimeCommands.Eject)
      invariant rt.driveOpens - old(rt.driveOpens)
             <= Attempts(INITIAL, loop.history) - Attempts(INITIAL, old(loop.history))
                + Asked(cycles[..index], RuntimeCommands.Preserve)
    {
      RunCycle(rt, loop, cycles[index]);
      trace := trace + [ViewOf(rt, loop)];
      AskedNext(cycles, index, RuntimeCommands.Eject);
      AskedNext(cycles, index, RuntimeCommands.Preserve);
    }
    assert cycles[..|cycles|] == cycles;
    AttemptsBounded(old(loop.history), loop.history);
  }

  lemma NothingAsked()
    ensures forall kind :: Asked([], kind) == 0
  {
  }

  lemma AttemptsBounded(before: seq<Step>, after: seq<Step>)
    requires before <= after
    ensures ResetFree(before, after[|before|..]) ==> Attempts(INITIAL, after) <= Attempts(INITIAL, before) + 3
  {
    var added := after[|before|..];
    assert before + added == after;
    AttemptsAppend(INITIAL, before, added);
    if ResetFree(before, added) {
      AtMostThreeAttempts(before, added);
    }
  }

  // Every open handle is in the session or in exactly one slot of the table,
  // never in both, and nothing else is open.
  ghost predicate OneOwner(rt: Runtime)
    reads rt
  {
    && (forall h :: h in rt.ledger.live <==> h in Held(rt.media) || h in PendingHeld(rt.pending))
    && Held(rt.media) !! PendingHeld(rt.pending)
    && forall i, j :: 0 <= i < j < |rt.pending| ==> Held(rt.pending[i].media) !! Held(rt.pending[j].media)
  }

  // The drives owed restoration are known, and differ from each other and from
  // the drive of a physical session.
  ghost predicate OwedApart(rt: Runtime)
    reads rt
  {
    && |rt.pending| == 32
    && (forall i :: 0 <= i < |rt.pending| && rt.pending[i].media.Owned() ==>
          && rt.pending[i].device.id != ""
          && (rt.media.Token().Some? ==> rt.media.Token().value.origin != Drive(rt.pending[i].device.id)))
    && forall i, j :: 0 <= i < j < |rt.pending| && rt.pending[i].media.Owned() && rt.pending[j].media.Owned() ==>
         rt.pending[i].device.id != rt.pending[j].device.id
  }

  lemma Owners(rt: Runtime)
    requires rt.Valid({})
    ensures OneOwner(rt) && OwedApart(rt)
  {
  }

  // The worker: any number of cycles, then attempts to clean up until one
  // succeeds or the schedule ends. In a reliable run the first one succeeds.
  method RunWorker(cycles: seq<Inputs>, attempts: nat, reliable: bool, xeniaExports: bool, xeniaImages: bool)
      returns (rt: Runtime, finished: bool, ghost trace: seq<View>)
    ensures fresh(rt) && rt.Valid({}) && OneOwner(rt) && OwedApart(rt)
    ensures Cycles(trace, cycles) && trace[0] == FirstView(reliable, xeniaExports, xeniaImages)
    ensures trace[|cycles|].log <= rt.log && rt.issued == trace[|cycles|].issued
    ensures |rt.issued| <= Asked(cycles, RuntimeCommands.Eject)
    ensures finished ==> AllReleased(rt)
    ensures finished ==> forall h :: Opened(h) in rt.log ==> WasClosed(rt.log, h)
    ensures reliable && attempts > 0 ==> finished
  {
    hide Custody, DriveOk, InventoryOk, PhysicalOk, PendingFor, OneOwner, OwedApart, Run, Attempts, Cycles;
    rt := new Runtime(reliable, xeniaExports, xeniaImages);
    var loop := new Loop();
    Initially(rt, loop);
    trace := RunCycles(rt, loop, cycles);
    ghost var sent := rt.issued;
    ghost var written := rt.log;
    finished := false;
    for attempt := 0 to attempts
      invariant rt.Valid({}) && fresh(rt) && rt.issued == sent && written <= rt.log
      invariant finished ==> AllReleased(rt)
      invariant reliable && attempt > 0 ==> finished
    {
      if !finished {
        ghost var flushed, saved;
        finished, flushed, saved := Cleanup(rt);
      }
    }
    Owners(rt);
    if finished {
      forall h | Opened(h) in rt.log ensures WasClosed(rt.log, h) {
        LiveIsOpenedNotClosed(rt.log, h);
      }
    }
  }

  // Nothing is open, nothing is known, and nothing has happened.
  ghost function FirstView(reliable: bool, exports: bool, images: bool): View {
    View(Environment(reliable, exports, images),
         NO_SESSION, false, NO_DEVICE, seq(MAX_DEVICES, _ => NO_PENDING), false, 0, [], [],
         [], false, FRESH_PHYSICAL, Discovering, false, "", INITIAL, [], false, 0, Delays(0, 0, 0))
  }

  datatype DestroyResult = Destroyed | DestroyRetry | DestroyedWithError

  // The runtime is freed only when nothing is owned any more: after the worker
  // has finished, or after a cleanup of its own when there is no worker.
  method Destroy(rt: Runtime, threadStarted: bool, workerFinished: bool) returns (result: DestroyResult)
    requires rt.Valid({}) && (threadStarted && workerFinished ==> AllReleased(rt))
    modifies rt`flushAttempted, rt`terminalFailed, rt`owner, rt`process, rt`storage
    modifies rt`media, rt`pending, rt`log, rt`begun, rt`ledger
    ensures rt.Valid({}) && old(rt.log) <= rt.log
    ensures !result.DestroyRetry? ==> AllReleased(rt)
    ensures threadStarted && !workerFinished ==> result.DestroyRetry? && rt.log == old(rt.log)
    ensures result.DestroyedWithError? ==> rt.terminalFailed
    ensures result.Destroyed? ==> !rt.terminalFailed
    ensures rt.reliable && (threadStarted ==> workerFinished) ==>
              result == if old(rt.terminalFailed) then DestroyedWithError else Destroyed
  {
    hide Runtime.Tracked, Custody, DriveOk, PlaybackOk;
    if threadStarted {
      if !workerFinished {
        return DestroyRetry;
      }
      var joined := Attempted(rt);
      if !joined {
        return DestroyRetry;
      }
    } else {
      ghost var flushed, saved;
      var clean;
      clean, flushed, saved := Cleanup(rt);
      if !clean {
        return DestroyRetry;
      }
    }
    return if rt.terminalFailed then DestroyedWithError else Destroyed;
  }

  lemma Initially(rt: Runtime, loop: Loop)
    requires rt.Valid({}) && rt.media == NO_SESSION && rt.opticalDevice == NO_DEVICE && !rt.preservationHold
    requires |rt.pending| == MAX_DEVICES && forall i :: 0 <= i < |rt.pending| ==> rt.pending[i] == NO_PENDING
    requires rt.acquired == 0 && rt.log == [] && rt.issued == []
    requires loop.physical == FRESH_PHYSICAL && loop.devices == [] && loop.history == [] && loop.Followed()
    requires loop.phase.Discovering? && !loop.imageSource && loop.imagePath == "" && !loop.inventoryFailed
    requires loop.observationDelay == 0 && !loop.forceLaunch
    requires loop.inventoryDelay == 0 && loop.pendingCleanupDelay == 0 && loop.cleanupDelay == 0
    ensures Sound(rt, loop)
    ensures ViewOf(rt, loop) == FirstView(rt.reliable, rt.xeniaExports, rt.xeniaImages)
  {
    assert rt.pending == seq(MAX_DEVICES, _ => NO_PENDING);
  }
}
