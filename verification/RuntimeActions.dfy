// The actions that requests lead to: src/app/runtime_actions.c.

module RuntimeActions {
  import opened Bytes
  import opened SessionLedger
  import opened SessionState
  import opened RuntimePlatform
  import opened RuntimeMedia
  import opened RuntimePlayback
  import opened RuntimeDrives
  import opened RuntimeSession
  import opened RuntimePreservation
  import opened RuntimeEffects
  import opened Phases
  import OpticalMonitors
  import RuntimeCommands

  // Stops what plays and closes what is owned, in this order and only as far
  // as it succeeds.
  method StopThenClose(rt: Runtime, loop: Loop) returns (ready: bool)
    requires Sound(rt, loop)
    modifies rt`owner, rt`process, rt`storage, rt`terminalFailed, rt`media, rt`log, rt`ledger
    modifies loop`phase, loop`backend, loop`imagePath, loop`imageSource
    ensures Sound(rt, loop) && loop.imageSource == old(loop.imageSource)
    ensures rt.media == old(rt.media) || ClosedTo(old(rt.media), rt.media)
    ensures rt.process ==> rt.media == old(rt.media)
    ensures ready ==> !rt.process && !rt.media.Owned()
    ensures rt.media.open ==> rt.media == old(rt.media)
    ensures ready ==> rt.log == Released(old(rt.log), old(rt.process), old(rt.media))
    ensures rt.reliable ==> ready
    ensures !old(rt.process) && !old(rt.media).Owned() ==>
              ready && rt.log == old(rt.log) && rt.ledger == old(rt.ledger) && rt.media == old(rt.media)
  {
    hide Runtime.Tracked, Custody, DriveOk, InventoryOk, OpticalMonitors.Run, PhysicalOk, PlaybackOk, AfterSessionClose;
    ready := true;
    if rt.process {
      ready := PlaybackStop(rt, loop);
    }
    if ready && rt.media.Owned() {
      ready := SessionClose(rt, loop);
      PhysicalAfterClose(loop.physical, old(rt.media), rt.media, rt.ledger.latches);
    }
  }

  method Release(rt: Runtime, loop: Loop) returns (ready: bool)
    requires Sound(rt, loop)
    modifies rt`owner, rt`process, rt`storage, rt`terminalFailed, rt`media, rt`log, rt`ledger
    modifies loop`phase, loop`backend, loop`imagePath, loop`imageSource
    ensures Sound(rt, loop) && ReleasesTo(old(ViewOf(rt, loop)), ViewOf(rt, loop), ready)
    ensures ready ==> !rt.process && !rt.media.Owned()
    ensures rt.media.open ==> rt.media == old(rt.media)
  {
    hide Sound, Runtime.Valid, OpticalMonitors.Run, ClosedTo, Released, Session.Owned, Session.Token;
    ready := StopThenClose(rt, loop);
  }

  lemma PhysicalAfterClose(physical: Physical, before: Session, after: Session, latches: set<Sighting>)
    requires PhysicalOk(physical, before, latches) && ClosedTo(before, after)
    ensures PhysicalOk(physical, after, latches)
  {
  }

  // The runtime shows that it needs attention.
  method ShowAttention(rt: Runtime, loop: Loop)
    requires Sound(rt, loop)
    modifies loop`phase
    ensures Sound(rt, loop) && loop.phase.Attention?
    ensures AsksAttention(old(ViewOf(rt, loop)), ViewOf(rt, loop))
  {
    hide Runtime.Tracked, Custody, DriveOk, InventoryOk, PhysicalOk, PlaybackOk, OpticalMonitors.Run;
    loop.phase := Attention;
  }

  method DelayObservation(rt: Runtime, loop: Loop, ticks: nat)
    requires Sound(rt, loop)
    modifies loop`observationDelay
    ensures Sound(rt, loop) && loop.observationDelay == ticks
    ensures ViewOf(rt, loop) == old(ViewOf(rt, loop)).(observationDelay := ticks)
  {
    hide Runtime.Tracked, Custody, DriveOk, InventoryOk, PhysicalOk, PlaybackOk, OpticalMonitors.Run;
    loop.observationDelay := ticks;
  }

  // Every request for a medium ends the hold of a preserved disc.
  method DropHold(rt: Runtime, loop: Loop)
    requires Sound(rt, loop)
    modifies rt`preservationHold
    ensures Sound(rt, loop) && !rt.preservationHold
    ensures DropsHold(old(ViewOf(rt, loop)), ViewOf(rt, loop))
  {
    hide Runtime.Tracked, Custody, DriveOk, InventoryOk, PhysicalOk, PlaybackOk, OpticalMonitors.Run;
    rt.preservationHold := false;
  }

  // No explicit eject was sent, and the monitor has only learnt more, within
  // the same cycle.
  twostate predicate Unsent(rt: Runtime, loop: Loop)
    reads rt, loop
  {
    rt.issued == old(rt.issued) && old(loop.history) <= loop.history && rt.begun == old(rt.begun)
  }

  method UsePhysicalSource(rt: Runtime, loop: Loop)
    requires Sound(rt, loop)
    modifies rt, loop
    ensures Sound(rt, loop) && rt.pending == old(rt.pending)
    ensures rt.issued == old(rt.issued) && old(loop.history) <= loop.history && rt.begun == old(rt.begun)
    ensures rt.driveOpens == old(rt.driveOpens) && loop.physical == old(loop.physical)
    ensures SwitchesToPhysical(old(ViewOf(rt, loop)), ViewOf(rt, loop))
  {
    hide Sound, Runtime.Valid, OpticalMonitors.Run, Session.Owned, ViewOf;
    hide SwitchesToPhysical, DropsHold, ReleasesTo, Forgets, AsksAttention;
    DropHold(rt, loop);
    ghost var dropped := ViewOf(rt, loop);
    var ready := Release(rt, loop);
    ghost var released := ViewOf(rt, loop);
    if ready {
      ForgetDrive(rt, loop);
    } else {
      ShowAttention(rt, loop);
    }
    PhysicalSwitched(old(ViewOf(rt, loop)), dropped, released, ViewOf(rt, loop), ready);
  }

  // The drive is looked for afresh, at once.
  method ForgetDrive(rt: Runtime, loop: Loop)
    requires Sound(rt, loop) && !rt.media.Owned()
    modifies rt`opticalDevice, rt`driveKnown
    modifies loop`phase, loop`imageSource, loop`backend, loop`imagePath, loop`optical, loop`history
    modifies loop`observationDelay
    ensures Sound(rt, loop) && old(loop.history) <= loop.history
    ensures Forgets(old(ViewOf(rt, loop)), ViewOf(rt, loop))
  {
    hide Sound, Runtime.Valid, OpticalMonitors.Run;
    SelectPhysical(rt, loop);
    DelayObservation(rt, loop, 0);
  }

  // The old session is gone before the image is opened.
  method OpenRequestedImage(rt: Runtime, loop: Loop, path: string)
    requires Sound(rt, loop)
    modifies rt, loop
    ensures Sound(rt, loop) && rt.pending == old(rt.pending)
    ensures rt.issued == old(rt.issued) && loop.history == old(loop.history) && rt.begun == old(rt.begun)
    ensures rt.driveOpens == old(rt.driveOpens) && loop.physical == old(loop.physical)
    ensures SwitchesToImage(old(ViewOf(rt, loop)), ViewOf(rt, loop), path)
  {
    hide Sound, Runtime.Valid, OpticalMonitors.Run, Session.Owned, ViewOf;
    hide SwitchesToImage, DropsHold, ReleasesTo, OpensImage, AsksAttention;
    DropHold(rt, loop);
    ghost var dropped := ViewOf(rt, loop);
    var ready := path != "";
    if ready {
      ready := Release(rt, loop);
    }
    ghost var released := ViewOf(rt, loop);
    if ready {
      ReopenImage(rt, loop, path);
    } else {
      ShowAttention(rt, loop);
    }
    ImageSwitched(old(ViewOf(rt, loop)), dropped, released, ViewOf(rt, loop), path, ready);
  }

  // Nothing is owned when the image is opened.
  method ReopenImage(rt: Runtime, loop: Loop, path: string)
    requires Sound(rt, loop) && !rt.media.Owned()
    modifies rt, loop
    ensures Sound(rt, loop) && rt.pending == old(rt.pending) && rt.preservationHold == old(rt.preservationHold)
    ensures rt.issued == old(rt.issued) && loop.history == old(loop.history) && rt.begun == old(rt.begun)
    ensures rt.driveOpens == old(rt.driveOpens)
    ensures loop.physical == old(loop.physical)
    ensures rt.media.open ==> rt.media.image && loop.imageSource && loop.imagePath == path
    ensures ViewOf(rt, loop).hold == old(ViewOf(rt, loop)).hold
    ensures OpensImage(old(ViewOf(rt, loop)), ViewOf(rt, loop), old(ViewOf(rt, loop)).log, path)
    ensures rt.opticalDevice == old(rt.opticalDevice) && loop.optical == old(loop.optical)
  {
    hide Runtime.Tracked, Custody, DriveOk, InventoryOk, PlaybackOk, OpticalMonitors.Run, OpenedAndStarted;
    var _ := PrepareImage(rt, loop, path, true);
  }

  // The drive of the open session is free to be opened again once that
  // session is closed.
  method PreserveRequestedDisc(rt: Runtime, loop: Loop, path: string, compact: bool)
    requires Sound(rt, loop) && rt.media.open && !rt.media.image
    modifies rt, loop
    ensures Sound(rt, loop) && rt.pending == old(rt.pending) && loop.physical == old(loop.physical)
    ensures Unsent(rt, loop) && rt.driveOpens <= old(rt.driveOpens) + 1
    ensures Preserves(old(ViewOf(rt, loop)), ViewOf(rt, loop), path, compact)
  {
    hide Sound, Runtime.Valid, OpticalMonitors.Run, Released, PreservedAs, ViewOf, ClosedTo, Session.Owned;
    DriveOfSession(rt, loop);
    var ready := Release(rt, loop);
    if !ready {
      ShowAttention(rt, loop);
      return;
    }
    WriteDisc(rt, loop, path, compact);
  }

  // Nothing is owned when the disc is opened again to be written.
  method WriteDisc(rt: Runtime, loop: Loop, path: string, compact: bool)
    requires Sound(rt, loop) && !rt.media.Owned() && !rt.process
    requires !PendingFor(rt.pending, rt.opticalDevice.id) && rt.opticalDevice.id != ""
    modifies rt, loop
    ensures Sound(rt, loop) && rt.pending == old(rt.pending) && loop.physical == old(loop.physical)
    ensures rt.issued == old(rt.issued) && loop.history == old(loop.history) && rt.begun == old(rt.begun)
    ensures rt.driveOpens <= old(rt.driveOpens) + 1
    ensures Writes(old(ViewOf(rt, loop)), ViewOf(rt, loop), path, compact)
  {
    hide Sound, Runtime.Valid, OpticalMonitors.Run, PreservedAs, PendingFor;
    var preserved := RunPreservation(rt, loop, path, compact);
    if !preserved {
      ShowAttention(rt, loop);
      DelayObservation(rt, loop, OBSERVATION_INTERVAL);
    } else {
      DelayObservation(rt, loop, 0);
    }
  }

  lemma DriveOfSession(rt: Runtime, loop: Loop)
    requires Sound(rt, loop) && rt.media.open && !rt.media.image
    ensures !PendingFor(rt.pending, rt.opticalDevice.id) && rt.opticalDevice.id != ""
  {
    assert rt.media.WellFormed();
  }

  // Some pending cleanup for the device `id` still holds a medium of it.
  predicate OwesMedium(pending: seq<Pending>, id: string) {
    exists i :: && 0 <= i < |pending| && pending[i].media.Owned() && pending[i].device.id == id
                && pending[i].media.Token().Some? && pending[i].media.Token().value.origin.Drive?
  }

  // An explicit eject, unlike a request of the drive itself, is for whatever
  // the current device holds. It is sent only when nothing of the session is
  // left, so that only the pending cleanups hold media then; it meets an open
  // medium exactly when one of them is owed to the current drive. `sent` says
  // whether it was sent.
  method EjectPhysicalDisc(rt: Runtime, loop: Loop) returns (handled: bool, ghost sent: bool)
    requires Sound(rt, loop)
    modifies rt, loop
    ensures Sound(rt, loop) && rt.pending == old(rt.pending) && loop.physical == old(loop.physical)
    ensures old(loop.history) <= loop.history && rt.driveOpens == old(rt.driveOpens)
    ensures rt.opticalDevice == old(rt.opticalDevice) && rt.begun == old(rt.begun)
    ensures handled == (old(rt.media).Owned() || old(rt.preservationHold)) && !rt.preservationHold
    ensures rt.media == old(rt.media) || ClosedTo(old(rt.media), rt.media)
    ensures !old(rt.media).Owned() ==> sent == (rt.opticalDevice.id != "")
    ensures !old(rt.media).Owned() && sent ==>
              rt.log == old(rt.log) + [EjectIssued(rt.opticalDevice.id)] && rt.ledger.live == old(rt.ledger).live
    ensures !sent ==> rt.issued == old(rt.issued)
    ensures sent ==> !rt.media.Owned() && rt.opticalDevice.id != "" && JustEjected(rt, old(rt.issued))
    ensures loop.optical == OpticalMonitors.INITIAL
    ensures Ejects(old(ViewOf(rt, loop)), ViewOf(rt, loop), handled)
  {
    hide Runtime.Tracked, Custody, DriveOk, InventoryOk, PhysicalOk, PlaybackOk, JustEjected;
    hide OpticalMonitors.Run, PendingFor, ClosedTo, Released;
    var hadSession, wasHeld := rt.media.Owned(), rt.preservationHold;
    DropHold(rt, loop);
    var ejected;
    ejected, sent := ReleaseAndEject(rt, loop);
    handled := hadSession || wasHeld;
    AfterEjectAttempt(rt, loop, ejected, handled);
  }

  method AfterEjectAttempt(rt: Runtime, loop: Loop, ejected: bool, handled: bool)
    requires Sound(rt, loop)
    modifies loop`optical, loop`history, loop`observationDelay
    ensures Sound(rt, loop) && old(loop.history) <= loop.history && loop.optical == OpticalMonitors.INITIAL
    ensures loop.observationDelay == if handled then OBSERVATION_INTERVAL else 0
  {
    hide Runtime.Tracked, Custody, DriveOk, InventoryOk, PhysicalOk, PlaybackOk, OpticalMonitors.Run;
    loop.Tell(if ejected then OpticalMonitors.EjectDone(OpticalMonitors.TrayEjected) else OpticalMonitors.Initialized);
    loop.observationDelay := if handled then OBSERVATION_INTERVAL else 0;
  }

  // The last event is an explicit eject of the current drive, the only new one
  // since `before`. Only pending cleanups held media then; it met an open
  // medium exactly when one of them is owed to that drive.
  ghost predicate JustEjected(rt: Runtime, before: seq<Ejection>)
    reads rt
  {
    && rt.log != [] && rt.log[|rt.log| - 1] == EjectIssued(rt.opticalDevice.id)
    && rt.issued == before + [Ejection(rt.opticalDevice.id, PendingHeld(rt.pending))]
    && ((exists h :: h in PendingHeld(rt.pending) && h.origin == Drive(rt.opticalDevice.id))
        <==> OwesMedium(rt.pending, rt.opticalDevice.id))
  }

  method ReleaseAndEject(rt: Runtime, loop: Loop) returns (ejected: bool, ghost sent: bool)
    requires Sound(rt, loop)
    modifies rt`owner, rt`process, rt`storage, rt`terminalFailed, rt`media, rt`log, rt`ledger, rt`issued
    modifies loop`phase, loop`backend, loop`imagePath, loop`imageSource
    ensures Sound(rt, loop)
    ensures rt.media == old(rt.media) || ClosedTo(old(rt.media), rt.media)
    ensures !old(rt.media).Owned() ==> sent == (rt.opticalDevice.id != "")
    ensures !old(rt.media).Owned() && sent ==>
              rt.log == old(rt.log) + [EjectIssued(rt.opticalDevice.id)] && rt.ledger.live == old(rt.ledger).live
    ensures !sent ==> rt.issued == old(rt.issued)
    ensures sent ==> !rt.media.Owned() && rt.opticalDevice.id != "" && JustEjected(rt, old(rt.issued))
    ensures if sent then EjectSent(old(ViewOf(rt, loop)), ViewOf(rt, loop)) else loop.phase.Attention?
    ensures rt.reliable ==> sent == (rt.opticalDevice.id != "")
  {
    hide Runtime.Tracked, Table, PendingFor, PendingHeld, DriveOk, InventoryOk, PhysicalOk, Released;
    hide OpticalMonitors.Run;
    sent := false;
    ejected := StopThenClose(rt, loop);
    if ejected {
      sent := rt.opticalDevice.id != "";
      ejected := SendEject(rt, loop);
    }
    if !ejected {
      loop.phase := Attention;
    }
  }

  method SendEject(rt: Runtime, loop: Loop) returns (ok: bool)
    requires Sound(rt, loop) && !rt.process && !rt.media.Owned()
    modifies rt`log, rt`ledger, rt`issued
    ensures Sound(rt, loop) && rt.ledger.live == old(rt.ledger).live
    ensures rt.opticalDevice.id == "" ==> !ok && rt.log == old(rt.log) && rt.issued == old(rt.issued)
    ensures rt.opticalDevice.id != "" ==>
              rt.log == old(rt.log) + [EjectIssued(rt.opticalDevice.id)] && JustEjected(rt, old(rt.issued))
  {
    hide Runtime.Tracked, Custody, DriveOk, InventoryOk, OwesMedium;
    OnlyPendingIsLive(rt);
    ok := EjectDevice(rt, rt.opticalDevice.id);
    EjectReachesOwedDrive(rt);
  }

  lemma OnlyPendingIsLive(rt: Runtime)
    requires rt.Valid({}) && !rt.media.Owned()
    ensures rt.ledger.live == PendingHeld(rt.pending)
  {
  }

  // Without a session, the current drive still has an open medium exactly
  // when a pending cleanup for it holds one. An explicit eject does not look
  // at that, so this is when it reaches a drive that is owed restoration.
  lemma EjectReachesOwedDrive(rt: Runtime)
    requires rt.Valid({}) && !rt.media.Owned()
    ensures rt.ledger.live == PendingHeld(rt.pending)
    ensures (exists h :: h in rt.ledger.live && h.origin == Drive(rt.opticalDevice.id))
       <==> OwesMedium(rt.pending, rt.opticalDevice.id)
  {
    if h :| h in rt.ledger.live && h.origin == Drive(rt.opticalDevice.id) {
      HeldByPending(rt.pending, h);
      var i :| 0 <= i < |rt.pending| && h in Held(rt.pending[i].media);
      assert Parked(rt.pending[i]) && rt.pending[i].media.Owned();
    }
    if OwesMedium(rt.pending, rt.opticalDevice.id) {
      var i :| && 0 <= i < |rt.pending| && rt.pending[i].media.Owned()
               && rt.pending[i].device.id == rt.opticalDevice.id
               && rt.pending[i].media.Token().Some? && rt.pending[i].media.Token().value.origin.Drive?;
      assert Parked(rt.pending[i]);
      HeldByPending(rt.pending, rt.pending[i].media.Token().value);
    }
  }

  const OWED: Device := Device("sr0", true, true, true, true)

  lemma NothingOwed(pending: seq<Pending>, id: string)
    requires pending != [] && forall i :: 0 <= i < |pending| ==> pending[i] == NO_PENDING
    ensures !PendingFor(pending, id) && FreeSlot(pending) == 0
  {
  }

  lemma Owed(pending: seq<Pending>, i: nat)
    requires i < |pending| && pending[i].media.Owned() && pending[i].device.id != ""
    ensures PendingFor(pending, pending[i].device.id)
  {
  }

  // The close of a medium of the drive has failed, and the session was set
  // aside.
  method OwedSession() returns (rt: Runtime, loop: Loop)
    ensures fresh(rt) && fresh(loop) && Sound(rt, loop) && rt.media == NO_SESSION && PendingFor(rt.pending, "sr0")
    ensures var h := Handle(0, Drive("sr0"));
            rt.log == [Opened(h), CloseFailed(h)] && rt.ledger.live == {h} && rt.issued == []
  {
    hide Runtime.Tracked, PendingFor, Table, PendingHeld, DriveOk, OpticalMonitors.Run;
    rt := UnclosedSession();
    loop := new Loop();
    var parked := RetainFailedCleanup(rt);
    Owed(rt.pending, 0);
  }

  // The same before the session is set aside.
  method UnclosedSession() returns (rt: Runtime)
    ensures fresh(rt) && rt.Valid({}) && !rt.process && !rt.media.open && !rt.media.image && rt.media.Owned()
    ensures rt.opticalDevice == OWED && CanRetain(OWED, rt.media, rt.pending) && FreeSlot(rt.pending) == 0
    ensures var h := Handle(0, Drive("sr0"));
            rt.log == [Opened(h), CloseFailed(h)] && rt.ledger.live == {h} && rt.issued == []
  {
    hide Runtime.Tracked, PendingFor, Table, PendingHeld;
    rt := new Runtime(false, false, false);
    rt.opticalDevice := OWED;
    ghost var live := rt.ledger.live;
    var h := rt.Acquire(Drive("sr0"));
    CustodyWithNew(live, rt.media, rt.pending, {}, h);
    assert {} + {h} == {h};
    NothingOwed(rt.pending, "sr0");
    RetainOpened(rt, h);
    rt.Record(CloseFailed(h));
  }

  // The inventory lists the owed drive, which is then selected.
  method SelectOwed(rt: Runtime, loop: Loop)
    requires Sound(rt, loop) && !rt.media.Owned() && PendingFor(rt.pending, "sr0")
    modifies rt`opticalDevice, rt`driveKnown, loop`devices
    ensures Sound(rt, loop) && rt.opticalDevice == OWED
  {
    hide Runtime.Tracked, PendingFor, Custody, OpticalMonitors.Run;
    loop.devices := Describe(rt, [Entry(OWED, true, false)]);
    var ok, presence := Resolve(rt, loop.devices, false, "sr0");
    assert loop.devices[0].device == OWED;
    assert !ok;
  }

  // A run in which that happens: the close of a medium of the drive fails, the
  // session is set aside and the drive forgotten, the drive is selected again,
  // is refused but current, and then an eject request is executed.
  method EjectOwedDrive() returns (rt: Runtime, loop: Loop)
    ensures Sound(rt, loop) && !rt.media.Owned()
    ensures var h := Handle(0, Drive("sr0"));
            && rt.log == [Opened(h), CloseFailed(h), EjectIssued("sr0")]
            && h in rt.ledger.live && rt.issued == [Ejection("sr0", {h})]
  {
    hide Runtime.Tracked, PendingFor, Custody, InventoryOk, OpticalMonitors.Run, Ejects, DriveOk;
    hide Table, OwesMedium, ClosedTo, PhysicalOk, Legal, Replay, ViewOf, EjectSent, Described;
    rt, loop := OwedSession();
    SelectPhysical(rt, loop);
    assert rt.opticalDevice == NO_DEVICE;
    SelectOwed(rt, loop);
    var _, sent := EjectPhysicalDisc(rt, loop);
    assert sent;
    OnlyPendingIsLive(rt);
  }

  // Stops and starts again; used for a restart and for new display settings.
  method RestartPlayback(rt: Runtime, loop: Loop)
    requires Sound(rt, loop)
    modifies rt`owner, rt`process, rt`storage, rt`terminalFailed, rt`media, rt`log, rt`ledger, loop`phase
    ensures Sound(rt, loop) && rt.media.open == old(rt.media).open && rt.media.Token() == old(rt.media).Token()
    ensures loop.phase.Playing? ==> rt.process || loop.phase == old(loop.phase)
    ensures Restarts(old(ViewOf(rt, loop)), ViewOf(rt, loop))
  {
    hide Runtime.Tracked, Custody, DriveOk, InventoryOk;
    var ok := PlaybackStop(rt, loop);
    if ok {
      ok := StartPlayback(rt, loop);
    }
    if !ok {
      loop.phase := Attention;
    }
  }

  // Whether a request ends the cycle in which it was taken.
  predicate EndsCycle(action: RuntimeCommands.Action) {
    action.SelectPhysical? || action.OpenDiscImage? || action.PreservePhysical? || action.ReopenImage?
  }

  // An action for the source of the media. It ends the cycle.
  method ExecuteSource(rt: Runtime, loop: Loop, request: RuntimeCommands.Request, action: RuntimeCommands.Action)
    requires Sound(rt, loop) && (rt.media.Owned() ==> rt.media.open) && EndsCycle(action)
    requires action.PreservePhysical? ==> rt.media.open && !rt.media.image
    requires action.ReopenImage? ==> !rt.media.open
    modifies rt, loop
    ensures Sound(rt, loop) && rt.pending == old(rt.pending) && loop.physical == old(loop.physical)
    ensures Unsent(rt, loop)
    ensures rt.driveOpens <= old(rt.driveOpens) + (if action.PreservePhysical? then 1 else 0)
    ensures var v, w := old(ViewOf(rt, loop)), ViewOf(rt, loop);
            && (action.SelectPhysical? ==> SwitchesToPhysical(v, w))
            && (action.OpenDiscImage? ==> SwitchesToImage(v, w, request.path))
            && (action.PreservePhysical? ==> Preserves(v, w, request.path, !request.redump))
            && (action.ReopenImage? ==> OpensImage(v, w, v.log, v.imagePath))
  {
    hide Runtime.Tracked, Custody, DriveOk, InventoryOk, PhysicalOk, PlaybackOk, OpticalMonitors.Run;
    hide SwitchesToPhysical, SwitchesToImage, Preserves, OpensImage;
    if action.SelectPhysical? {
      UsePhysicalSource(rt, loop);
    } else if action.OpenDiscImage? {
      OpenRequestedImage(rt, loop, request.path);
    } else if action.PreservePhysical? {
      PreserveRequestedDisc(rt, loop, request.path, !request.redump);
    } else {
      ReopenImage(rt, loop, loop.imagePath);
    }
  }

  // An action for the emulator. It keeps the session.
  method ExecutePlayback(rt: Runtime, loop: Loop, action: RuntimeCommands.Action)
    requires Sound(rt, loop) && !EndsCycle(action)
    requires !action.NoAction? && !action.DiscoverPhysical? && !action.EjectPhysical?
    requires action.StartEmulator? ==> !rt.process
    requires action.StopEmulator? ==> rt.process
    modifies rt`owner, rt`process, rt`storage, rt`terminalFailed, rt`media, rt`log, rt`ledger, loop`phase
    ensures Sound(rt, loop) && rt.media.open == old(rt.media).open && rt.media.Token() == old(rt.media).Token()
    ensures var v, w := old(ViewOf(rt, loop)), ViewOf(rt, loop);
            && (action.RestartEmulator? || action.ApplyDisplaySettings? ==> Restarts(v, w))
            && (action.StopEmulator? ==> Stops(v, w))
            && (action.StartEmulator? ==> Starts(v, w))
  {
    hide Runtime.Tracked, Custody, DriveOk, InventoryOk, OpticalMonitors.Run, Restarts;
    if action.RestartEmulator? || action.ApplyDisplaySettings? {
      RestartPlayback(rt, loop);
      return;
    }
    var ok;
    if action.StopEmulator? {
      ok := PlaybackStop(rt, loop);
    } else {
      ok := StartPlayback(rt, loop);
    }
    if !ok {
      loop.phase := Attention;
    }
  }

  // The current drive is to be looked at afresh.
  method DiscoverPhysical(rt: Runtime, loop: Loop)
    requires Sound(rt, loop)
    modifies rt`preservationHold, loop`forceLaunch, loop`optical, loop`history, loop`observationDelay
    ensures Sound(rt, loop) && Discovers(old(ViewOf(rt, loop)), ViewOf(rt, loop))
  {
    hide Runtime.Tracked, Custody, DriveOk, InventoryOk, PhysicalOk, PlaybackOk, OpticalMonitors.Run;
    rt.preservationHold := false;
    loop.forceLaunch := true;
    loop.Tell(OpticalMonitors.Retried);
    loop.observationDelay := 0;
  }

  // Any other action. Only an eject may end the cycle.
  method ExecuteInCycle(rt: Runtime, loop: Loop, action: RuntimeCommands.Action) returns (handled: bool)
    requires Sound(rt, loop) && !EndsCycle(action)
    requires action.StartEmulator? ==> !rt.process
    requires action.StopEmulator? ==> rt.process
    modifies rt, loop
    ensures Sound(rt, loop) && rt.pending == old(rt.pending) && loop.physical == old(loop.physical)
    ensures old(loop.history) <= loop.history && rt.driveOpens == old(rt.driveOpens) && rt.begun == old(rt.begun)
    ensures || rt.issued == old(rt.issued)
            || (&& action.EjectPhysical? && old(rt.opticalDevice).id != ""
                && rt.issued == old(rt.issued) + [Ejection(old(rt.opticalDevice).id, PendingHeld(rt.pending))])
    ensures !action.EjectPhysical? ==> rt.media.Token() == old(rt.media).Token()
    ensures var v, w := old(ViewOf(rt, loop)), ViewOf(rt, loop);
            && (!action.EjectPhysical? ==> !handled && w.media.open == v.media.open)
            && (action.NoAction? ==> w == v && rt.ledger == old(rt.ledger))
            && (action.DiscoverPhysical? ==> Discovers(v, w) && rt.ledger == old(rt.ledger))
            && (action.EjectPhysical? ==>
                  && Ejects(v, w, handled) && handled == (v.media.Owned() || v.hold)
                  && (w.media == v.media || ClosedTo(v.media, w.media)))
            && (action.RestartEmulator? || action.ApplyDisplaySettings? ==> Restarts(v, w))
            && (action.StopEmulator? ==> Stops(v, w))
            && (action.StartEmulator? ==> Starts(v, w))
  {
    hide Sound, Runtime.Valid, PendingHeld, PendingFor, OwesMedium, Session.Owned, ClosedTo;
    hide OpticalMonitors.Run, Restarts, Stops, Starts, Ejects;
    handled := false;
    if action.DiscoverPhysical? {
      DiscoverPhysical(rt, loop);
    } else if action.EjectPhysical? {
      ghost var sent;
      handled, sent := EjectPhysicalDisc(rt, loop);
    } else if !action.NoAction? {
      ExecutePlayback(rt, loop, action);
    }
  }

  // Plans a request and executes the action. A request has the effect of its
  // kind, whatever the plan was.
  method Execute(rt: Runtime, loop: Loop, request: RuntimeCommands.Request) returns (handled: bool)
    requires Sound(rt, loop) && (rt.media.Owned() ==> rt.media.open)
    modifies rt, loop
    ensures Sound(rt, loop) && rt.pending == old(rt.pending) && loop.physical == old(loop.physical)
    ensures old(loop.history) <= loop.history && rt.begun == old(rt.begun)
    ensures rt.driveOpens <= old(rt.driveOpens) + (if request.kind.Preserve? then 1 else 0)
    ensures || rt.issued == old(rt.issued)
            || (&& request.kind.Eject? && old(rt.opticalDevice).id != ""
                && rt.issued == old(rt.issued) + [Ejection(old(rt.opticalDevice).id, PendingHeld(rt.pending))])
    ensures !handled && rt.media.Owned() ==> rt.media.open
    ensures Effect(old(ViewOf(rt, loop)), ViewOf(rt, loop), request, handled)
  {
    hide Runtime.Tracked, Custody, DriveOk, InventoryOk, PhysicalOk, PendingHeld, PendingFor, OwesMedium;
    hide OpticalMonitors.Run, Restarts, Stops, Starts, Ejects, SwitchesToPhysical, SwitchesToImage, Preserves;
    hide OpensImage, Discovers;
    var state := RuntimeCommands.CommandState(loop.imageSource, rt.media.open, rt.process, loop.imagePath != "");
    var action := RuntimeCommands.PlanRequest(request.kind, state);
    if EndsCycle(action) {
      ExecuteSource(rt, loop, request, action);
      return true;
    }
    handled := ExecuteInCycle(rt, loop, action);
  }
}
