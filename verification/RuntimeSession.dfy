// The life cycle of a session: src/app/runtime_session.c.

module RuntimeSession {
  import opened Bytes
  import opened SessionLedger
  import opened SessionState
  import opened RuntimePlatform
  import opened RuntimeMedia
  import opened RuntimePlayback
  import opened OpticalMonitors
  import opened Phases
  import PhysicalMonitors

  const OBSERVATION_INTERVAL: nat := 5
  const DEVICE_INTERVAL: nat := 9
  const MEDIA_INTERVAL: nat := 9
  const READ_STATS_INTERVAL: nat := 10

  method ResetMediaSnapshot(loop: Loop, imageSource: bool)
    modifies loop`imageSource, loop`backend, loop`imagePath
    ensures loop.imageSource == imageSource && loop.backend.NoBackend? && loop.imagePath == ""
  {
    loop.imageSource, loop.backend, loop.imagePath := imageSource, NoBackend, "";
  }

  // Closes an owned session once nothing plays any more.
  method SessionClose(rt: Runtime, loop: Loop) returns (ok: bool)
    requires rt.Valid({}) && !rt.process
    modifies rt`media, rt`log, rt`ledger, loop`backend, loop`imagePath, loop`phase, loop`imageSource
    ensures rt.Valid({}) && loop.imageSource == old(loop.imageSource)
    ensures if old(rt.media).Owned()
            then ClosedTo(old(rt.media), rt.media)
                 && rt.ledger == AfterSessionClose(old(rt.ledger), old(rt.media), rt.media, ok)
            else ok && rt.media == old(rt.media) && rt.ledger == old(rt.ledger)
    ensures rt.ledger.latches == old(rt.ledger).latches
    ensures ok ==> !rt.media.Owned()
    ensures old(rt.media).exported.Some? ==> (ok <==> !rt.media.Owned())
    ensures ok && old(rt.media).Owned() ==> loop.phase.Empty?
    ensures !ok || !old(rt.media).Owned() ==> loop.phase == old(loop.phase) && loop.backend == old(loop.backend)
    ensures rt.log == old(rt.log) + CloseEvents(old(rt.media), rt.media, ok)
    ensures rt.reliable ==> ok
  {
    hide Runtime.Tracked, Custody, DriveOk;
    if !rt.media.Owned() {
      return true;
    }
    ok := CloseMedia(rt, {});
    if !ok {
      return false;
    }
    ResetMediaSnapshot(loop, loop.imageSource);
    loop.phase := Empty;
  }

  // Only the disc of an image moves into an export when playback starts.
  lemma PhysicalAfterStart(physical: Physical, before: Session, after: Session, latches: set<Sighting>)
    requires PhysicalOk(physical, before, latches) && before.WellFormed() && SameMedium(before, after)
    ensures PhysicalOk(physical, after, latches)
    ensures after.open == before.open && after.image == before.image && after.Token() == before.Token()
  {
  }

  // Starting playback keeps the invariant of the worker.
  method StartPlayback(rt: Runtime, loop: Loop) returns (ok: bool)
    requires Sound(rt, loop)
    modifies rt`owner, rt`process, rt`storage, rt`media, rt`log, rt`ledger, loop`phase
    ensures Sound(rt, loop) && SameMedium(old(rt.media), rt.media) && rt.media.open == old(rt.media).open
    ensures rt.media.Token() == old(rt.media).Token() && rt.media.image == old(rt.media).image
    ensures old(rt.media).exported.Some? ==> rt.media == old(rt.media)
    ensures ok ==> rt.process && !old(rt.process) && rt.owner == OwnerOf(rt.media.backend) && loop.phase.Playing?
    ensures old(rt.process) ==> !ok && rt.process
    ensures rt.log == old(rt.log) + LaunchEvents(old(rt.process), rt.process, rt.media)
    ensures rt.reliable && !old(rt.process) && old(Playable(rt)) ==> ok
  {
    hide Runtime.Tracked, Table, PendingHeld, PendingFor, DriveOk, InventoryOk, Run;
    assert rt.media.WellFormed();
    ok := PlaybackStart(rt, loop);
    PhysicalAfterStart(loop.physical, old(rt.media), rt.media, rt.ledger.latches);
  }

  // A prepared session may start to play at once.
  method StartIfWanted(rt: Runtime, loop: Loop, wanted: bool)
    requires Sound(rt, loop)
    modifies rt`owner, rt`process, rt`storage, rt`media, rt`log, rt`ledger, loop`phase
    ensures Sound(rt, loop) && rt.media.open == old(rt.media).open && rt.media.image == old(rt.media).image
    ensures old(rt.media).exported.Some? ==> rt.media == old(rt.media)
    ensures rt.media.Token() == old(rt.media).Token() && rt.media.backend == old(rt.media).backend
    ensures !wanted ==> rt.media == old(rt.media) && rt.process == old(rt.process) && loop.phase == old(loop.phase)
    ensures || (rt.process && loop.phase.Playing?) || loop.phase.Attention?
            || (rt.process == old(rt.process) && loop.phase == old(loop.phase))
    ensures rt.log == old(rt.log) + LaunchEvents(old(rt.process), rt.process, rt.media)
    ensures rt.reliable && wanted && !old(rt.process) && old(Playable(rt)) ==> rt.process && loop.phase.Playing?
  {
    hide Runtime.Tracked, Custody, DriveOk, InventoryOk;
    var backendReady := Attempted(rt);
    if wanted && backendReady {
      var started := StartPlayback(rt, loop);
      if !started {
        loop.phase := Attention;
      }
    }
  }

  // The medium was opened and recognised, and its emulator perhaps started.
  predicate OpenedAndStarted(before: seq<Event>, after: seq<Event>, h: Handle, backend: Backend, started: bool) {
    && |after| == |before| + (if started then 3 else 2)
    && OpenedFor(before, after[..|before| + 2], h, backend)
    && (started ==> after[|before| + 2] == Launched(h))
  }

  // What a prepared session shows.
  predicate ShowsPrepared(phase: Phase, process: bool, wanted: bool) {
    || phase.Attention? || (phase.Ready? && !process) || (phase.Playing? && process && wanted)
  }

  lemma StartedAfterOpening(before: seq<Event>, begun: seq<Event>, after: seq<Event>, h: Handle, backend: Backend,
                            started: bool)
    requires OpenedFor(before, begun, h, backend)
    requires after == begun + (if started then [Launched(h)] else [])
    ensures OpenedAndStarted(before, after, h, backend, started)
  {
    assert after[..|before| + 2] == begun;
  }

  // A session that was just opened is shown, and may start to play at once.
  method StartPrepared(rt: Runtime, loop: Loop, launch: bool)
    requires rt.Valid({}) && loop.Followed() && rt.media.open && !rt.process && loop.imageSource == rt.media.image
    requires PhysicalOk(loop.physical, rt.media, rt.ledger.latches) && InventoryOk(loop.devices, rt.pending)
    modifies rt`owner, rt`process, rt`storage, rt`media, rt`log, rt`ledger, loop`phase, loop`backend
    ensures Sound(rt, loop) && rt.media.open && rt.media.image == old(rt.media).image
    ensures rt.media.Token() == old(rt.media).Token() && rt.media.backend == old(rt.media).backend
    ensures old(rt.media).exported.Some? ==> rt.media == old(rt.media)
    ensures ShowsPrepared(loop.phase, rt.process, launch) && (!launch ==> !rt.process)
    ensures rt.log == old(rt.log) + LaunchEvents(false, rt.process, rt.media)
    ensures rt.reliable && old(Playable(rt)) ==> if launch then rt.process && loop.phase.Playing? else loop.phase.Ready?
  {
    hide Runtime.Tracked, Custody, DriveOk, InventoryOk, Run;
    loop.backend := rt.media.backend;
    loop.phase := Ready;
    StartIfWanted(rt, loop, launch);
  }

  datatype LiveResult = Prepared | RetryableFailure | TerminalFailure

  // Opens the medium of the current drive and shows it.
  method PrepareLive(rt: Runtime, loop: Loop, launch: bool)
      returns (result: LiveResult, ghost state: OpenState, ghost code: Code)
    requires Sound(rt, loop) && !rt.media.Owned() && loop.physical.cleanup.NoCleanup?
    requires !PendingFor(rt.pending, rt.opticalDevice.id)
    modifies rt`owner, rt`process, rt`storage, rt`media, rt`acquired, rt`log, rt`ledger, rt`driveOpens
    modifies loop`phase, loop`imageSource, loop`backend, loop`imagePath
    ensures Sound(rt, loop) && rt.driveOpens <= old(rt.driveOpens) + 1
    ensures result.Prepared? <==> rt.media.open
    ensures result.Prepared? ==> rt.media.exported == Some(Handle(old(rt.acquired), Drive(rt.opticalDevice.id)))
    ensures result.Prepared? && !launch ==> !rt.process
    ensures !result.Prepared? ==> !rt.process
    ensures result.RetryableFailure? ==> loop.backend.NoBackend?
    ensures result.RetryableFailure? <==> state.Unidentified? && (code.NotFound? || code.Transport?)
    ensures result.Prepared? ==>
              && state.MediaReady? && ShowsPrepared(loop.phase, rt.process, launch)
              && OpenedAndStarted(old(rt.log), rt.log, rt.media.exported.value, rt.media.backend, rt.process)
    ensures !result.Prepared? ==> loop.phase.Attention?
    ensures old(rt.log) <= rt.log
    ensures rt.reliable && rt.opticalDevice.id != "" && !result.Prepared? ==>
              !rt.xeniaExports
              && NeedsXenia(old(rt.log), rt.log, Handle(old(rt.acquired), Drive(rt.opticalDevice.id)))
    ensures rt.reliable && result.Prepared? ==> if launch then rt.process && loop.phase.Playing? else loop.phase.Ready?
  {
    hide Runtime.Tracked, Custody, DriveOk, InventoryOk, PendingFor, Run, OpenedFor, OpenedAndStarted, NeedsXenia;
    ResetMediaSnapshot(loop, false);
    loop.phase := Preparing;
    var ok, reached, reported := OpenPhysical(rt);
    state, code := reached, reported;
    if !ok {
      if reached.Identified? {
        loop.backend := *;
      }
      loop.phase := Attention;
      result := if reached.Unidentified? && (reported.NotFound? || reported.Transport?) then RetryableFailure
                else TerminalFailure;
      return;
    }
    ghost var begun := rt.log;
    var identityValid := Attempted(rt);
    if !identityValid {
      CloseInvalid(rt, loop);
      result := TerminalFailure;
      return;
    }
    StartPrepared(rt, loop, launch);
    StartedAfterOpening(old(rt.log), begun, rt.log, rt.media.exported.value, rt.media.backend, rt.process);
    result := Prepared;
  }

  // Opened media without a valid identity are closed again.
  method CloseInvalid(rt: Runtime, loop: Loop)
    requires rt.Valid({}) && !rt.process && rt.media.open
    modifies rt`media, rt`log, rt`ledger, loop`phase
    ensures rt.Valid({}) && ClosedTo(old(rt.media), rt.media) && rt.ledger.latches == old(rt.ledger).latches
    ensures loop.phase.Attention? && old(rt.log) <= rt.log
  {
    hide Runtime.Tracked, Custody, DriveOk;
    var _ := CloseMedia(rt, {});
    loop.phase := Attention;
  }

  // Opens a disc image and shows it. The session must not be open; one that
  // still waits to be closed makes the image fail to open.
  method PrepareImage(rt: Runtime, loop: Loop, path: string, launch: bool) returns (ok: bool)
    requires Sound(rt, loop) && !rt.media.open
    modifies rt`owner, rt`process, rt`storage, rt`media, rt`acquired, rt`log, rt`ledger, rt`driveOpens
    modifies loop`phase, loop`imageSource, loop`backend, loop`imagePath
    ensures Sound(rt, loop) && loop.imageSource && loop.imagePath == path && rt.driveOpens == old(rt.driveOpens)
    ensures ok <==> rt.media.open
    ensures ok ==> rt.media.image && rt.media.Token() == Some(Handle(old(rt.acquired), Image))
    ensures old(rt.media).Owned() ==> !ok && rt.media == old(rt.media) && rt.ledger == old(rt.ledger)
    ensures !ok || !launch ==> !rt.process
    ensures ok ==>
              && 0 < |path| < 4096 && ShowsPrepared(loop.phase, rt.process, launch)
              && OpenedAndStarted(old(rt.log), rt.log, Handle(old(rt.acquired), Image), rt.media.backend, rt.process)
    ensures !ok ==> loop.phase.Attention?
    ensures old(rt.log) <= rt.log
    ensures rt.reliable && !old(rt.media).Owned() && 0 < |path| < 4096 && !ok ==>
              !rt.xeniaExports && !rt.xeniaImages && NeedsXenia(old(rt.log), rt.log, Handle(old(rt.acquired), Image))
    ensures rt.reliable && ok ==> if launch then rt.process && loop.phase.Playing? else loop.phase.Ready?
  {
    hide Runtime.Tracked, Table, PendingHeld, PendingFor, DriveOk, InventoryOk, Run;
    hide OpenedFor, OpenedAndStarted, NeedsXenia;
    ResetMediaSnapshot(loop, true);
    loop.imagePath := path;
    loop.phase := Preparing;
    var state, code;
    ok, state, code := OpenImage(rt, path);
    if !ok {
      if state.Identified? {
        loop.backend := *;
      }
      loop.phase := Attention;
      return false;
    }
    ghost var begun := rt.log;
    var identityValid := Attempted(rt);
    if !identityValid {
      CloseInvalid(rt, loop);
      return false;
    }
    StartPrepared(rt, loop, launch);
    StartedAfterOpening(old(rt.log), begun, rt.log, Handle(old(rt.acquired), Image), rt.media.backend, rt.process);
  }

  // Forgets the current drive; nothing is owned at that moment.
  method SelectPhysical(rt: Runtime, loop: Loop)
    requires Sound(rt, loop) && !rt.media.Owned()
    modifies rt`opticalDevice, rt`driveKnown
    modifies loop`phase, loop`imageSource, loop`backend, loop`imagePath, loop`optical, loop`history
    ensures Sound(rt, loop) && rt.opticalDevice == NO_DEVICE && loop.history == old(loop.history) + [Retried]
    ensures loop.optical == REARMED && loop.phase.Discovering? && !loop.imageSource
  {
    hide Runtime.Tracked, Custody, InventoryOk;
    ResetMediaSnapshot(loop, false);
    loop.phase := Discovering;
    rt.driveKnown := false;
    rt.opticalDevice := NO_DEVICE;
    loop.Tell(Retried);
  }

  // ---------------------------------------------------------------------
  // The end of a physical session

  datatype EndReason = MediaHasChanged | EjectWasRequested | DriveDisconnected | SessionFailed

  // What the monitor of the drive is told of the end.
  function StepAfterEnd(reason: EndReason, cleanupPending: bool): Step {
    if cleanupPending || reason.EjectWasRequested? then BlockedBy
    else if reason.SessionFailed? then Failed(Terminal)
    else Initialized
  }

  // What the automatic attempts may do next.
  function MonitorAfterEnd(m: OpticalMonitors.State, reason: EndReason, cleanupPending: bool): OpticalMonitors.State {
    if cleanupPending || reason.EjectWasRequested? then BLOCKED
    else if reason.SessionFailed? then AfterFailure(m, Terminal)
    else INITIAL
  }

  // One look at the medium of `h`.
  predicate LookAt(look: seq<Event>, h: Handle) {
    && |look| == 1
    && (look[0] == ObserveFailed(h) || (look[0].Observed? && look[0].handle == h))
  }

  // The look shows a medium that is present, asks to be ejected and is of the
  // generation of the request.
  predicate AsksStill(look: seq<Event>, h: Handle, generation: nat) {
    look == [Event.Observed(h, PhysicalMonitors.Observation(
                                 PhysicalMonitors.Present, generation, PhysicalMonitors.EjectRequest))]
  }

  // Only an eject request has to be looked at again, once nothing plays.
  predicate LooksAgain(look: seq<Event>, reason: EndReason, process: bool, media: Session) {
    if reason.EjectWasRequested? && !process && media.exported.Some? then LookAt(look, media.exported.value)
    else look == []
  }

  // An eject request that is no longer current counts as a change of media.
  function EffectiveReason(reason: EndReason, look: seq<Event>, ejectAuthorized: bool): EndReason {
    if look != [] && !ejectAuthorized then MediaHasChanged else reason
  }

  // The release of `h` was authorised by a sighting of generation `generation`.
  predicate ReleasedFor(ledger: Ledger, h: Handle, generation: nat) {
    ledger.released == Some(Sighting(h, generation)) && h.origin.Drive? && ledger.reader.None?
  }

  // Stops playback and closes the session. An eject request is only
  // authorised by a new look at the medium after playback has stopped.
  method EndPhysical(rt: Runtime, loop: Loop, reason: EndReason, generation: nat)
      returns (cleanupPending: bool, ejectAuthorized: bool, ghost look: seq<Event>)
    requires rt.Valid({}) && loop.Followed() && rt.media.exported.Some?
    modifies rt`owner, rt`process, rt`storage, rt`terminalFailed, rt`media, rt`log, rt`ledger
    modifies loop`phase, loop`backend, loop`imagePath, loop`imageSource, loop`optical, loop`history
    ensures rt.Valid({}) && rt.ledger.latches == old(rt.ledger).latches
    ensures loop.Followed() && old(loop.history) <= loop.history
    ensures loop.imageSource == old(loop.imageSource)
    ensures rt.media == old(rt.media) || ClosedTo(old(rt.media), rt.media)
    ensures rt.process ==> rt.media == old(rt.media) && old(rt.process)
    ensures !rt.process ==> !rt.media.open
    ensures cleanupPending == rt.media.Owned()
    ensures ejectAuthorized ==> reason.EjectWasRequested? && !rt.process
    ensures ejectAuthorized && !cleanupPending ==>
              ReleasedFor(rt.ledger, old(rt.media).exported.value, generation)
    ensures LooksAgain(look, reason, rt.process, old(rt.media))
    ensures ejectAuthorized <==> AsksStill(look, old(rt.media).exported.value, generation)
    ensures rt.log == old(rt.log) + StopEvents(old(rt.process), rt.process) + look
                      + (if rt.process then [] else CloseEvents(old(rt.media), rt.media, !cleanupPending))
    ensures loop.optical
         == MonitorAfterEnd(old(loop.optical), EffectiveReason(reason, look, ejectAuthorized), cleanupPending)
    ensures rt.process ==> loop.backend == old(loop.backend)
    ensures cleanupPending || !EffectiveReason(reason, look, ejectAuthorized).MediaHasChanged? ==>
              loop.phase.Attention?
    ensures rt.reliable ==> !rt.process && !cleanupPending
  {
    hide Runtime.Tracked, MonitorAfterEnd, Custody, DriveOk, Run, ReleasedFor, AsksStill, LookAt, CloseEvents;
    var playbackClean := true;
    if rt.process {
      playbackClean := PlaybackStop(rt, loop);
    }
    var effective, mediaClean;
    effective, ejectAuthorized, mediaClean, look := CloseEnded(rt, loop, reason, generation);
    cleanupPending := rt.media.Owned();
    ShowEnd(loop, effective, cleanupPending, playbackClean && mediaClean);
  }

  // Closes the session unless its emulator could not be stopped.
  method CloseEnded(rt: Runtime, loop: Loop, reason: EndReason, generation: nat)
      returns (effective: EndReason, ejectAuthorized: bool, clean: bool, ghost look: seq<Event>)
    requires rt.Valid({}) && rt.media.exported.Some?
    modifies rt`media, rt`log, rt`ledger, loop`phase, loop`backend, loop`imagePath, loop`imageSource
    ensures rt.Valid({}) && rt.ledger.latches == old(rt.ledger).latches
    ensures loop.imageSource == old(loop.imageSource)
    ensures rt.media == old(rt.media) || ClosedTo(old(rt.media), rt.media)
    ensures rt.process ==> rt.media == old(rt.media) && loop.backend == old(loop.backend)
    ensures !rt.process ==> !rt.media.open
    ensures ejectAuthorized ==> reason.EjectWasRequested? && !rt.process
    ensures ejectAuthorized && !rt.media.Owned() ==>
              ReleasedFor(rt.ledger, old(rt.media).exported.value, generation)
    ensures LooksAgain(look, reason, rt.process, old(rt.media))
    ensures ejectAuthorized <==> AsksStill(look, old(rt.media).exported.value, generation)
    ensures effective == EffectiveReason(reason, look, ejectAuthorized)
    ensures rt.log == old(rt.log) + look
                      + (if rt.process then [] else CloseEvents(old(rt.media), rt.media, !rt.media.Owned()))
    ensures rt.reliable && !rt.process ==> !rt.media.Owned()
  {
    hide Runtime.Tracked, Custody, DriveOk, AsksStill, LookAt;
    effective, ejectAuthorized, look := EndReasonNow(rt, reason, generation);
    clean := true;
    if !rt.process && rt.media.Owned() {
      clean := SessionClose(rt, loop);
    }
  }

  method EndReasonNow(rt: Runtime, reason: EndReason, generation: nat)
      returns (effective: EndReason, ejectAuthorized: bool, ghost look: seq<Event>)
    requires rt.Valid({}) && rt.media.exported.Some?
    modifies rt`log, rt`ledger
    ensures rt.Valid({}) && rt.ledger.latches == old(rt.ledger).latches && rt.ledger.live == old(rt.ledger).live
    ensures ejectAuthorized ==>
              && reason.EjectWasRequested? && !rt.process
              && rt.ledger.authorised == Some(Sighting(rt.media.exported.value, generation))
              && rt.media.exported.value.origin.Drive?
    ensures LooksAgain(look, reason, rt.process, rt.media) && rt.log == old(rt.log) + look
    ensures ejectAuthorized <==> AsksStill(look, rt.media.exported.value, generation)
    ensures effective == EffectiveReason(reason, look, ejectAuthorized)
  {
    hide Runtime.Tracked, Custody, DriveOk;
    effective, ejectAuthorized, look := reason, false, [];
    if reason.EjectWasRequested? && !rt.process && rt.media.exported.Some? {
      ejectAuthorized := Authorise(rt, generation);
      look := rt.log[|old(rt.log)|..];
      if !ejectAuthorized {
        effective := MediaHasChanged;
      }
    }
  }

  method ShowEnd(loop: Loop, effective: EndReason, cleanupPending: bool, clean: bool)
    requires loop.Followed()
    modifies loop`phase, loop`optical, loop`history
    ensures loop.Followed() && old(loop.history) <= loop.history
    ensures loop.optical == MonitorAfterEnd(old(loop.optical), effective, cleanupPending)
    ensures loop.phase
         == if cleanupPending || !clean || !effective.MediaHasChanged? then Attention else old(loop.phase)
  {
    hide Runtime.Tracked, Run;
    loop.Tell(StepAfterEnd(effective, cleanupPending));
    if cleanupPending || !clean || !effective.MediaHasChanged? {
      loop.phase := Attention;
    }
  }

  // Whether the exported medium still asks to be ejected, is ready, and is of
  // the given generation.
  method Authorise(rt: Runtime, generation: nat) returns (current: bool)
    requires rt.Valid({}) && rt.media.exported.Some?
    modifies rt`log, rt`ledger
    ensures rt.Valid({}) && rt.ledger.latches == old(rt.ledger).latches && rt.ledger.live == old(rt.ledger).live
    ensures current && !rt.process ==>
              && rt.ledger.authorised == Some(Sighting(rt.media.exported.value, generation))
              && rt.media.exported.value.origin.Drive?
    ensures |rt.log| == |old(rt.log)| + 1 && old(rt.log) < rt.log
    ensures LookAt(rt.log[|old(rt.log)|..], rt.media.exported.value)
    ensures current <==>
              && |rt.log| > |old(rt.log)| && rt.log[|rt.log| - 1].Observed?
              && PhysicalMonitors.EjectRequestMatches(rt.log[|rt.log| - 1].observation, generation)
    ensures current <==> AsksStill(rt.log[|old(rt.log)|..], rt.media.exported.value, generation)
  {
    hide Runtime.Tracked, Table, PendingHeld, PendingFor, DriveOk;
    assert rt.media.exported.value in Held(rt.media);
    var ok, observation := ObserveExport(rt, rt.media.exported.value);
    return ok && PhysicalMonitors.EjectRequestMatches(observation, generation);
  }
}
