// Playback: src/app/runtime_playback.c over runtime_xemu.c, runtime_xenia.c
// and runtime_dolphin.c. The three processes share one C union, which is the
// slot `process`; `owner` says which emulator it belongs to.

module RuntimePlayback {
  import opened Bytes
  import opened SessionLedger
  import opened SessionState
  import opened RuntimePlatform
  import opened RuntimeMedia
  import opened Phases

  function OwnerOf(backend: Backend): Owner {
    match backend
    case NoBackend => NoOwner
    case XemuBackend => XemuOwner
    case XeniaBackend => XeniaOwner
    case DolphinBackend => DolphinOwner
  }

  predicate OwnerHasProcess(owner: Owner, process: bool) {
    !owner.NoOwner? && process
  }

  // What a start writes, by the process slot before and after it.
  function LaunchEvents(before: bool, after: bool, media: Session): seq<Event> {
    if !before && after && media.Token().Some? then [Launched(media.Token().value)] else []
  }

  // What a stop writes.
  function StopEvents(before: bool, after: bool): seq<Event> {
    if before && !after then [Reaped] else []
  }

  // The emulator was asked, and one that has ended leaves the slot.
  predicate PolledTo(before: seq<Event>, after: seq<Event>, process: bool) {
    || (after == before && process)
    || (after == before + [Polled(true)] && process)
    || (after == before + [Polled(false)] && process)
    || (after == before + [Polled(false), Reaped] && !process)
  }

  // ---------------------------------------------------------------------
  // The backends

  // The process object goes away; the medium is free again.
  method EmptySlot(rt: Runtime)
    requires rt.Settled({}) && rt.process
    modifies rt`process, rt`log, rt`ledger
    ensures rt.Settled({}) && !rt.process && rt.ledger == Apply(old(rt.ledger), Reaped)
    ensures rt.log == old(rt.log) + [Reaped]
  {
    hide Runtime.Tracked, Custody, DriveOk;
    rt.Record(Reaped);
    rt.process := false;
  }

  // Starts an emulator on the medium of the session.
  method Launch(rt: Runtime) returns (ok: bool)
    requires rt.Settled({}) && !rt.process && rt.media.open
    modifies rt`process, rt`log, rt`ledger
    ensures rt.Settled({}) && rt.ledger.latches == old(rt.ledger).latches
    ensures rt.log == old(rt.log) + LaunchEvents(false, rt.process, rt.media)
    ensures rt.reliable ==> ok && rt.process
  {
    hide Runtime.Tracked, PendingFor, PendingHeld, Table, DriveOk;
    assert rt.media.Token().value in Held(rt.media);
    var launched;
    ok, launched := LaunchEmulator(rt, rt.media.Token().value);
    rt.process := launched;
  }

  method StartXemu(rt: Runtime) returns (ok: bool)
    requires rt.Settled({})
    modifies rt`process, rt`log, rt`ledger
    ensures rt.Settled({}) && rt.ledger.latches == old(rt.ledger).latches
    ensures old(rt.process) ==> !ok && rt.process && rt.ledger == old(rt.ledger)
    ensures rt.process && !old(rt.process) ==> rt.media.backend.XemuBackend? && rt.media.exported.Some?
    ensures rt.log == old(rt.log) + LaunchEvents(old(rt.process), rt.process, rt.media)
    ensures rt.reliable && !old(rt.process) && rt.media.open && rt.media.backend.XemuBackend? ==> ok && rt.process
  {
    assert rt.media.WellFormed();
    hide Runtime.Tracked, Custody, DriveOk;
    var setUp := Attempted(rt);
    if rt.process || !rt.media.open || !rt.media.backend.XemuBackend? || rt.media.exported.None? || !setUp {
      return false;
    }
    var vaultReady := Attempted(rt);
    if !vaultReady {
      return false;
    }
    ok := Launch(rt);
  }

  method StartDolphin(rt: Runtime) returns (ok: bool)
    requires rt.Settled({})
    modifies rt`process, rt`log, rt`ledger
    ensures rt.Settled({}) && rt.ledger.latches == old(rt.ledger).latches
    ensures old(rt.process) ==> !ok && rt.process && rt.ledger == old(rt.ledger)
    ensures rt.process && !old(rt.process) ==> rt.media.backend.DolphinBackend? && rt.media.exported.Some?
    ensures rt.log == old(rt.log) + LaunchEvents(old(rt.process), rt.process, rt.media)
    ensures rt.reliable && !old(rt.process) && rt.media.open && rt.media.backend.DolphinBackend? ==> ok && rt.process
  {
    assert rt.media.WellFormed();
    hide Runtime.Tracked, Custody, DriveOk;
    var resolved := Attempted(rt);
    if rt.process || !rt.media.open || !rt.media.backend.DolphinBackend? || rt.media.exported.None? || !resolved {
      return false;
    }
    ok := Launch(rt);
  }

  // The isolated storage of a Xenia session; opening it may fail.
  method OpenStorage(rt: Runtime) returns (ok: bool)
    modifies rt`storage
    ensures ok ==> rt.storage
    ensures rt.reliable ==> ok
  {
    ok := Attempted(rt);
    if ok {
      rt.storage := true;
    } else {
      rt.storage := *;
    }
  }

  // On failure the storage is kept for another attempt.
  method CloseStorage(rt: Runtime) returns (ok: bool)
    modifies rt`storage
    ensures ok ==> !rt.storage
    ensures !ok ==> old(rt.storage) && rt.storage
    ensures rt.reliable ==> ok
  {
    ok := !rt.storage;
    if !ok {
      ok := Attempted(rt);
    }
    if ok {
      rt.storage := false;
    }
  }

  // A failed launch closes the storage, unless it left a process behind.
  method CleanupFailedStart(rt: Runtime)
    modifies rt`storage
    ensures rt.process ==> rt.storage == old(rt.storage)
  {
    if rt.process {
      return;
    }
    var _ := CloseStorage(rt);
  }

  method StartXenia(rt: Runtime) returns (ok: bool)
    requires rt.Settled({})
    modifies rt`process, rt`storage, rt`media, rt`log, rt`ledger
    ensures rt.Settled({}) && rt.ledger.latches == old(rt.ledger).latches
    ensures old(rt.process) ==> !ok && rt.process && rt.ledger == old(rt.ledger) && rt.media == old(rt.media)
    ensures rt.process && !old(rt.process) ==> rt.media.backend.XeniaBackend?
    ensures SameMedium(old(rt.media), rt.media)
    ensures rt.log == old(rt.log) + LaunchEvents(old(rt.process), rt.process, rt.media)
    ensures ok ==> rt.storage
    ensures rt.reliable && !old(rt.process) && old(rt.media).backend.XeniaBackend? && old(Playable(rt)) ==>
              ok && rt.process
  {
    hide Runtime.Tracked, Custody, DriveOk;
    var resolved := Attempted(rt);
    if rt.process || !rt.media.open || !rt.media.backend.XeniaBackend? || !resolved {
      return false;
    }
    var stored := OpenStorage(rt);
    if !stored {
      return false;
    }
    var prepared, target := PrepareXeniaTarget(rt);
    if !prepared {
      CleanupFailedStart(rt);
      return false;
    }
    ok := Launch(rt);
    if !ok {
      CleanupFailedStart(rt);
    }
  }

  // Preparing a target keeps the medium, possibly moved from disc to export.
  predicate SameMedium(before: Session, after: Session) {
    || after == before
    || (before.open && before.disc.Some? && after == before.(disc := None, exported := before.disc))
  }

  // An orderly stop that fails keeps the process; one that ends with a bad
  // exit code reports an error although the process is gone.
  method StopOrderly(rt: Runtime) returns (ok: bool)
    requires rt.Settled({}) && rt.process
    modifies rt`process, rt`log, rt`ledger
    ensures rt.Settled({}) && rt.ledger.latches == old(rt.ledger).latches
    ensures ok ==> !rt.process
    ensures rt.process ==> rt.ledger == old(rt.ledger)
    ensures rt.ledger.live == old(rt.ledger).live
    ensures rt.log == old(rt.log) + StopEvents(true, rt.process)
    ensures rt.reliable ==> ok
  {
    hide Runtime.Tracked, Custody, DriveOk;
    var stopped := Attempted(rt);
    if !stopped {
      return false;
    }
    EmptySlot(rt);
    ok := Attempted(rt);
  }

  method StopXenia(rt: Runtime) returns (ok: bool)
    requires rt.Settled({}) && rt.process
    modifies rt`process, rt`storage, rt`terminalFailed, rt`log, rt`ledger
    ensures rt.Settled({}) && rt.ledger.latches == old(rt.ledger).latches
    ensures rt.ledger.live == old(rt.ledger).live
    ensures ok ==> !rt.process && !rt.storage
    ensures rt.process ==> rt.storage == old(rt.storage) && rt.ledger == old(rt.ledger)
    ensures old(rt.terminalFailed) ==> rt.terminalFailed
    ensures rt.log == old(rt.log) + StopEvents(true, rt.process)
    ensures ok || rt.process ==> rt.terminalFailed == old(rt.terminalFailed)
    ensures !ok && !rt.process && !rt.storage ==> rt.terminalFailed
    ensures rt.reliable ==> ok
  {
    hide Runtime.Tracked, Custody, DriveOk;
    var stopped := StopOrderly(rt);
    if rt.process {
      return false;
    }
    if !stopped {
      rt.terminalFailed := true;
    }
    var closed := CloseStorage(rt);
    if !closed {
      return false;
    }
    return stopped;
  }

  // Consumes the process only on success.
  method StopDolphin(rt: Runtime) returns (ok: bool)
    requires rt.Settled({}) && rt.process
    modifies rt`process, rt`log, rt`ledger
    ensures rt.Settled({}) && rt.ledger.latches == old(rt.ledger).latches
    ensures rt.ledger.live == old(rt.ledger).live
    ensures ok <==> !rt.process
    ensures !ok ==> rt.ledger == old(rt.ledger)
    ensures rt.log == old(rt.log) + StopEvents(true, rt.process)
    ensures rt.reliable ==> ok
  {
    hide Runtime.Tracked, Custody, DriveOk;
    ok := Attempted(rt);
    if ok {
      EmptySlot(rt);
    }
  }

  method StopBackend(rt: Runtime) returns (ok: bool)
    requires rt.Settled({}) && rt.process
    modifies rt`process, rt`storage, rt`terminalFailed, rt`log, rt`ledger
    ensures rt.Settled({}) && rt.ledger.latches == old(rt.ledger).latches
    ensures rt.ledger.live == old(rt.ledger).live
    ensures rt.owner.DolphinOwner? && ok ==> !rt.process
    ensures old(rt.terminalFailed) ==> rt.terminalFailed
    ensures ok || rt.process ==> rt.terminalFailed == old(rt.terminalFailed)
    ensures rt.log == old(rt.log) + StopEvents(true, rt.process)
    ensures rt.reliable ==> ok
  {
    hide Runtime.Tracked, Custody, DriveOk;
    if rt.owner.XemuOwner? {
      ok := StopOrderly(rt);
    } else if rt.owner.DolphinOwner? {
      ok := StopDolphin(rt);
    } else {
      ok := StopXenia(rt);
    }
  }

  // The emulator is asked whether it still runs. One that has ended leaves
  // the slot at once, except that Dolphin has to be stopped first.
  method PollBackend(rt: Runtime) returns (ok: bool, running: bool)
    requires rt.Settled({}) && rt.process
    modifies rt`process, rt`storage, rt`log, rt`ledger
    ensures rt.Settled({}) && rt.ledger.latches == old(rt.ledger).latches
    ensures rt.ledger.live == old(rt.ledger).live
    ensures ok && rt.owner.DolphinOwner? ==> (running <==> rt.process)
    ensures rt.process ==> rt.storage == old(rt.storage)
    ensures !rt.process ==> (ok <==> (rt.owner.XeniaOwner? ==> !rt.storage))
    ensures PolledTo(old(rt.log), rt.log, rt.process)
    ensures ok && running ==> rt.process
    ensures ok ==> old(rt.log) + [Polled(running)] <= rt.log
    ensures !ok && !rt.owner.DolphinOwner? && rt.process ==> rt.log == old(rt.log)
    ensures rt.reliable ==> ok
  {
    hide Runtime.Tracked, Custody, DriveOk;
    ok, running := AskEmulator(rt);
    if !ok || running {
      return;
    }
    if rt.owner.DolphinOwner? {
      ok := StopDolphin(rt);
      return;
    }
    EmptySlot(rt);
    if rt.owner.XeniaOwner? {
      ok := CloseStorage(rt);
    }
  }

  // The Dolphin branch returns without touching the owner: by then a
  // successful stop has already emptied the slot.
  method DestroyOwned(rt: Runtime)
    requires rt.Settled({}) && rt.process
    modifies rt`process, rt`owner, rt`log, rt`ledger
    ensures rt.Settled({}) && rt.ledger.latches == old(rt.ledger).latches
    ensures rt.ledger.live == old(rt.ledger).live
    ensures if old(rt.owner).DolphinOwner? then rt.owner == old(rt.owner) && rt.process
            else rt.owner.NoOwner? && !rt.process
    ensures rt.log == old(rt.log) + StopEvents(true, rt.process)
  {
    hide Runtime.Tracked, Custody, DriveOk;
    if rt.owner.DolphinOwner? {
      return;
    }
    EmptySlot(rt);
    rt.owner := NoOwner;
  }

  // ---------------------------------------------------------------------
  // Start, stop, poll, shutdown

  method PlaybackStart(rt: Runtime, loop: Loop) returns (ok: bool)
    requires rt.Valid({})
    modifies rt`owner, rt`process, rt`storage, rt`media, rt`log, rt`ledger, loop`phase
    ensures rt.Valid({}) && SameMedium(old(rt.media), rt.media)
    ensures rt.ledger.latches == old(rt.ledger).latches
    ensures old(rt.process) || loop.backend != old(rt.media).backend ==>
              !ok && rt.process == old(rt.process) && rt.owner == old(rt.owner) && rt.ledger == old(rt.ledger)
    ensures rt.process && !old(rt.process) ==> rt.owner == OwnerOf(rt.media.backend)
    ensures ok ==> rt.process && loop.phase.Playing?
    ensures rt.log == old(rt.log) + LaunchEvents(old(rt.process), rt.process, rt.media)
    ensures rt.reliable && !old(rt.process) && old(Playable(rt)) && loop.backend == old(rt.media).backend ==> ok
  {
    assert rt.media.WellFormed();
    hide Runtime.Tracked, Custody, DriveOk;
    if !rt.owner.NoOwner? || rt.process {
      return false;
    }
    if loop.backend != rt.media.backend {
      return false;
    }
    var owner := OwnerOf(loop.backend);
    if owner.NoOwner? {
      return false;
    }
    if owner.XemuOwner? {
      loop.phase := Preparing;
      var savesReady := Attempted(rt);
      if !savesReady {
        return false;
      }
    }
    ok := StartOwned(rt, owner);
    if ok {
      loop.phase := Playing;
    }
  }

  method StartBackend(rt: Runtime) returns (ok: bool)
    requires rt.Settled({}) && !rt.process && rt.owner == OwnerOf(rt.media.backend)
    modifies rt`process, rt`storage, rt`media, rt`log, rt`ledger
    ensures rt.Settled({}) && SameMedium(old(rt.media), rt.media)
    ensures rt.ledger.latches == old(rt.ledger).latches
    ensures rt.process ==> rt.owner == OwnerOf(rt.media.backend)
    ensures rt.log == old(rt.log) + LaunchEvents(false, rt.process, rt.media)
    ensures rt.reliable && !rt.owner.NoOwner? && old(Playable(rt)) ==> ok && rt.process
  {
    hide Runtime.Tracked, Custody, DriveOk;
    if rt.owner.XemuOwner? {
      ok := StartXemu(rt);
    } else if rt.owner.DolphinOwner? {
      ok := StartDolphin(rt);
    } else {
      ok := StartXenia(rt);
    }
  }

  // The slot belongs to `owner` as soon as its backend may have filled it.
  method StartOwned(rt: Runtime, owner: Owner) returns (ok: bool)
    requires rt.Valid({}) && !rt.process && !owner.NoOwner? && owner == OwnerOf(rt.media.backend)
    modifies rt`owner, rt`process, rt`storage, rt`media, rt`log, rt`ledger
    ensures rt.Valid({}) && SameMedium(old(rt.media), rt.media)
    ensures rt.ledger.latches == old(rt.ledger).latches
    ensures rt.process ==> rt.owner == owner == OwnerOf(rt.media.backend)
    ensures ok ==> rt.process
    ensures rt.log == old(rt.log) + LaunchEvents(false, rt.process, rt.media)
    ensures rt.reliable && old(Playable(rt)) ==> ok
  {
    hide Runtime.Tracked, Custody, DriveOk;
    rt.owner := owner;
    ok := StartBackend(rt);
    if !ok {
      if !OwnerHasProcess(rt.owner, rt.process) {
        rt.owner := NoOwner;
      }
      return false;
    }
    if !OwnerHasProcess(rt.owner, rt.process) {
      rt.owner := NoOwner;
      return false;
    }
  }

  // Stopping what does not run succeeds. Whatever happens, the owner is put
  // right, and a stop that succeeds leaves no process.
  method PlaybackStop(rt: Runtime, loop: Loop) returns (ok: bool)
    requires rt.Valid({})
    modifies rt`owner, rt`process, rt`storage, rt`terminalFailed, rt`log, rt`ledger, loop`phase
    ensures rt.Valid({}) && rt.ledger.latches == old(rt.ledger).latches && rt.ledger.live == old(rt.ledger).live
    ensures ok ==> !rt.process
    ensures !old(rt.process) ==> ok && rt.ledger == old(rt.ledger) && loop.phase == old(loop.phase)
    ensures old(rt.process) ==> loop.phase == if ok then Ready else old(loop.phase)
    ensures rt.log == old(rt.log) + StopEvents(old(rt.process), rt.process)
    ensures rt.reliable ==> ok
  {
    hide Runtime.Tracked, Custody, DriveOk;
    if rt.owner.NoOwner? {
      assert !rt.process;
      return true;
    }
    assert OwnerHasProcess(rt.owner, rt.process);
    ok := StopBackend(rt);
    if !ok {
      if !OwnerHasProcess(rt.owner, rt.process) {
        rt.owner := NoOwner;
      }
      return false;
    }
    if OwnerHasProcess(rt.owner, rt.process) {
      DestroyOwned(rt);
    } else {
      rt.owner := NoOwner;
    }
    loop.phase := Ready;
  }

  method PlaybackPoll(rt: Runtime) returns (ok: bool, running: bool)
    requires rt.Valid({})
    modifies rt`owner, rt`process, rt`storage, rt`log, rt`ledger
    ensures rt.Valid({}) && rt.ledger.latches == old(rt.ledger).latches && rt.ledger.live == old(rt.ledger).live
    ensures ok ==> (running <==> rt.process)
    ensures !old(rt.process) ==> !ok && !rt.process && rt.ledger == old(rt.ledger) && rt.log == old(rt.log)
    ensures old(rt.process) ==> PolledTo(old(rt.log), rt.log, rt.process)
    ensures ok ==> old(rt.log) + [Polled(running)] <= rt.log
    ensures rt.reliable && old(rt.process) ==> ok
  {
    hide Runtime.Tracked, Custody, DriveOk;
    if rt.owner.NoOwner? {
      return false, false;
    }
    assert OwnerHasProcess(rt.owner, rt.process);
    ok, running := PollBackend(rt);
    if !ok {
      if !OwnerHasProcess(rt.owner, rt.process) {
        rt.owner := NoOwner;
      }
      return;
    }
    if running {
      assert OwnerHasProcess(rt.owner, rt.process);
      return;
    }
    if OwnerHasProcess(rt.owner, rt.process) {
      DestroyOwned(rt);
      assert old(rt.log) + [Polled(false)] + [Reaped] == old(rt.log) + [Polled(false), Reaped];
    } else {
      rt.owner := NoOwner;
    }
  }

  method PlaybackShutdown(rt: Runtime) returns (ok: bool)
    requires rt.Valid({})
    modifies rt`owner, rt`process, rt`storage, rt`terminalFailed, rt`log, rt`ledger
    ensures rt.Valid({}) && rt.ledger.latches == old(rt.ledger).latches && rt.ledger.live == old(rt.ledger).live
    ensures ok ==> !rt.process
    ensures !old(rt.process) ==> ok && rt.ledger == old(rt.ledger) && rt.terminalFailed == old(rt.terminalFailed)
    ensures old(rt.terminalFailed) ==> rt.terminalFailed
    ensures ok ==> rt.terminalFailed == old(rt.terminalFailed)
    ensures rt.log == old(rt.log) + StopEvents(old(rt.process), rt.process)
    ensures rt.reliable ==> ok
  {
    hide Runtime.Tracked, Custody, DriveOk;
    if rt.owner.NoOwner? {
      assert !rt.process;
      return true;
    }
    assert OwnerHasProcess(rt.owner, rt.process);
    ok := StopBackend(rt);
    if ok && OwnerHasProcess(rt.owner, rt.process) {
      DestroyOwned(rt);
    } else if !OwnerHasProcess(rt.owner, rt.process) {
      rt.owner := NoOwner;
    }
  }
}
