// The calls of the session runtime into code that is not part of the model:
// drives, sources, discs, exports, emulators. Each method records what the
// call does to its handle and otherwise returns any outcome its header
// (include/gdox) allows; in a reliable run it succeeds.

module RuntimePlatform {
  import opened Bytes
  import opened SessionLedger
  import opened SessionState
  import OpticalMonitors
  import PhysicalMonitors

  datatype Code = NotFound | Transport | InputOutput | OtherCode

  // A close either finishes, or reports an error after it has consumed the
  // handle, or leaves the handle open for another attempt.
  datatype CloseOutcome = Done | ConsumedWithError | Kept

  // What an attempt to close `h` writes.
  function CloseEvent(h: Handle, outcome: CloseOutcome): Event {
    match outcome
    case Done => Closed(h)
    case ConsumedWithError => ClosedBadly(h)
    case Kept => CloseFailed(h)
  }

  // A step of code outside of the model that succeeds or fails.
  method Attempted(rt: Runtime) returns (ok: bool)
    ensures rt.reliable ==> ok
  {
    ok := *;
    ok := ok || rt.reliable;
  }

  method CloseSource(rt: Runtime, h: Handle) returns (outcome: CloseOutcome)
    requires rt.Tracked() && Permitted(rt.ledger, Closed(h))
    modifies rt`log, rt`ledger
    ensures rt.Tracked() && rt.ledger == Apply(old(rt.ledger), CloseEvent(h, outcome))
    ensures rt.log == old(rt.log) + [CloseEvent(h, outcome)]
    ensures rt.reliable ==> outcome.Done?
  {
    outcome := *;
    if rt.reliable {
      outcome := Done;
    }
    rt.Record(CloseEvent(h, outcome));
  }

  // An export that fails to close is kept.
  method CloseExport(rt: Runtime, h: Handle) returns (ok: bool)
    requires rt.Tracked() && Permitted(rt.ledger, Closed(h))
    modifies rt`log, rt`ledger
    ensures rt.Tracked() && rt.ledger == Apply(old(rt.ledger), if ok then Closed(h) else CloseFailed(h))
    ensures rt.log == old(rt.log) + [if ok then Closed(h) else CloseFailed(h)]
    ensures rt.reliable ==> ok
  {
    ok := Attempted(rt);
    rt.Record(if ok then Closed(h) else CloseFailed(h));
  }

  // Opening a drive fails without a valid device, and may fail with the
  // source still open for another attempt to close it.
  method OpenDrive(rt: Runtime, device: Device) returns (ok: bool, whole: Option<Handle>)
    requires rt.Tracked() && rt.ledger.reader.None?
    requires device.id != "" ==> forall k :: k in rt.ledger.live ==> k.origin != Drive(device.id)
    modifies rt`acquired, rt`log, rt`ledger, rt`driveOpens
    ensures rt.Tracked()
    ensures ok ==> whole.Some?
    ensures rt.reliable && device.id != "" ==> ok
    ensures device.id == "" ==>
              whole.None? && rt.log == old(rt.log) && rt.ledger == old(rt.ledger)
              && rt.driveOpens == old(rt.driveOpens)
    ensures device.id != "" ==> rt.driveOpens == old(rt.driveOpens) + 1
    ensures device.id != "" && whole.None? ==>
              rt.log == old(rt.log) + [OpenFailed(device.id)]
              && rt.ledger == Apply(old(rt.ledger), OpenFailed(device.id))
    ensures whole.Some? ==>
              && whole.value == Handle(old(rt.acquired), Drive(device.id))
              && whole.value !in old(rt.ledger.live) && rt.log == old(rt.log) + [Opened(whole.value)]
              && rt.ledger == Apply(old(rt.ledger), Opened(whole.value))
    ensures whole.None? ==> rt.acquired == old(rt.acquired)
  {
    if device.id == "" {
      return false, None;
    }
    ok := Attempted(rt);
    var kept: bool := *;
    if !ok && !kept {
      rt.RecordOpenFailed(device.id);
      return false, None;
    }
    var h := rt.Acquire(Drive(device.id));
    return ok, Some(h);
  }

  // The profile of an open disc, which is known in a reliable run.
  method RecogniseDisc(rt: Runtime, h: Handle) returns (profile: Profile)
    requires rt.Tracked() && h in rt.ledger.live
    modifies rt`log, rt`ledger
    ensures rt.Tracked() && rt.log == old(rt.log) + [Recognised(h, profile)]
    ensures rt.ledger == Apply(old(rt.ledger), Recognised(h, profile))
    ensures profile in {Xgd1, Xgd2, Xgd3, GameCube, Wii, UnknownProfile}
    ensures rt.reliable ==> !profile.UnknownProfile?
  {
    profile := *;
    if profile !in {Xgd1, Xgd2, Xgd3, GameCube, Wii, UnknownProfile} || (rt.reliable && profile.UnknownProfile?) {
      profile := Xgd1;
    }
    rt.Record(Recognised(h, profile));
  }

  // The platform of an open image.
  method RecogniseImage(rt: Runtime, h: Handle) returns (profile: Profile)
    requires rt.Tracked() && h in rt.ledger.live
    modifies rt`log, rt`ledger
    ensures rt.Tracked() && rt.log == old(rt.log) + [Recognised(h, profile)]
    ensures rt.ledger == Apply(old(rt.ledger), Recognised(h, profile))
    ensures profile in {XboxImage, Xbox360Image, UnknownImage}
    ensures rt.reliable ==> !profile.UnknownImage?
  {
    profile := *;
    if profile !in {XboxImage, Xbox360Image, UnknownImage} || (rt.reliable && profile.UnknownImage?) {
      profile := XboxImage;
    }
    rt.Record(Recognised(h, profile));
  }

  // A builder moves its source into a disc. When it fails, the source may be
  // untouched, gone, or already in a disc that still has to be closed.
  datatype BuildOutcome = Built | Untouched | InDisc | Gone

  method BuildDisc(rt: Runtime, h: Handle) returns (outcome: BuildOutcome)
    requires rt.Tracked() && Permitted(rt.ledger, Closed(h))
    modifies rt`log, rt`ledger
    ensures rt.Tracked()
    ensures rt.ledger == if outcome.Gone? then Apply(old(rt.ledger), Closed(h))
                         else if outcome.InDisc? then Apply(old(rt.ledger), CloseFailed(h))
                         else old(rt.ledger)
    ensures rt.log == old(rt.log) + (if outcome.Gone? then [Closed(h)]
                                     else if outcome.InDisc? then [CloseFailed(h)] else [])
    ensures rt.reliable ==> outcome.Built?
  {
    outcome := *;
    if rt.reliable {
      outcome := Built;
    }
    if outcome.Gone? {
      rt.Record(Closed(h));
    } else if outcome.InDisc? {
      rt.Record(CloseFailed(h));
    }
  }

  // A disc image that cannot be opened leaves nothing open.
  method OpenImageFile(rt: Runtime) returns (disc: Option<Handle>)
    requires rt.Tracked() && rt.ledger.reader.None?
    modifies rt`acquired, rt`log, rt`ledger, rt`driveOpens
    ensures rt.Tracked() && rt.driveOpens == old(rt.driveOpens)
    ensures disc.None? ==> rt.ledger == old(rt.ledger) && rt.log == old(rt.log)
    ensures disc.Some? ==>
              && disc.value == Handle(old(rt.acquired), Image)
              && disc.value !in old(rt.ledger.live) && rt.log == old(rt.log) + [Opened(disc.value)]
              && rt.ledger == Apply(old(rt.ledger), Opened(disc.value))
    ensures rt.reliable ==> disc.Some?
  {
    var ok := Attempted(rt);
    if !ok {
      return None;
    }
    var h := rt.Acquire(Image);
    return Some(h);
  }

  // File-backed media never ask to be ejected.
  method ObserveExport(rt: Runtime, h: Handle) returns (ok: bool, observation: PhysicalMonitors.Observation)
    requires rt.Tracked() && h in rt.ledger.live
    modifies rt`log, rt`ledger
    ensures rt.Tracked()
    ensures rt.log == old(rt.log) + [if ok then Observed(h, observation) else ObserveFailed(h)]
    ensures rt.ledger == Apply(old(rt.ledger), if ok then Observed(h, observation) else ObserveFailed(h))
    ensures !ok ==> observation == PhysicalMonitors.NO_OBSERVATION
    ensures ok && h.origin.Image? ==> observation.event != PhysicalMonitors.EjectRequest
    ensures rt.reliable ==> ok
  {
    ok := Attempted(rt);
    if !ok {
      rt.Record(ObserveFailed(h));
      return false, PhysicalMonitors.NO_OBSERVATION;
    }
    observation := *;
    if h.origin.Image? && observation.event.EjectRequest? {
      observation := observation.(event := PhysicalMonitors.NoMediaEvent);
    }
    rt.Record(Observed(h, observation));
  }

  // A launch may fail and yet leave a process to be stopped.
  method LaunchEmulator(rt: Runtime, h: Handle) returns (ok: bool, process: bool)
    requires rt.Tracked() && Permitted(rt.ledger, Launched(h))
    modifies rt`log, rt`ledger
    ensures rt.Tracked()
    ensures rt.ledger == if process then Apply(old(rt.ledger), Launched(h)) else old(rt.ledger)
    ensures rt.log == if process then old(rt.log) + [Launched(h)] else old(rt.log)
    ensures rt.reliable ==> ok && process
  {
    ok := Attempted(rt);
    process := Attempted(rt);
    if process {
      rt.Record(Launched(h));
    }
  }

  // Whether the emulator still runs, if that can be found out.
  method AskEmulator(rt: Runtime) returns (ok: bool, running: bool)
    requires rt.Tracked() && rt.ledger.reader.Some?
    modifies rt`log, rt`ledger
    ensures rt.Tracked()
    ensures rt.ledger == if ok then Apply(old(rt.ledger), Polled(running)) else old(rt.ledger)
    ensures rt.log == if ok then old(rt.log) + [Polled(running)] else old(rt.log)
    ensures rt.reliable ==> ok
  {
    ok := Attempted(rt);
    running := *;
    if ok {
      rt.Record(Polled(running));
    }
  }

  method ListDevices(rt: Runtime, enabled: bool, excluded: set<string>) returns (ok: bool, devices: seq<Device>)
    requires rt.Tracked() && Permitted(rt.ledger, Inventoried(enabled, excluded, None))
    modifies rt`log, rt`ledger
    ensures rt.Tracked()
    ensures var event := Inventoried(enabled, excluded, if ok then Some(devices) else None);
            rt.log == old(rt.log) + [event] && rt.ledger == Apply(old(rt.ledger), event)
    ensures rt.reliable ==> ok
  {
    ok := Attempted(rt);
    devices := *;
    rt.Record(Inventoried(enabled, excluded, if ok then Some(devices) else None));
  }

  // The image of a disc is written from its source, whole or compact.
  method WriteFile(rt: Runtime, h: Handle, compact: bool) returns (ok: bool)
    requires rt.Tracked() && Permitted(rt.ledger, ImageWritten(h, compact))
    modifies rt`log, rt`ledger
    ensures rt.Tracked()
    ensures rt.ledger == if ok then Apply(old(rt.ledger), ImageWritten(h, compact)) else old(rt.ledger)
    ensures rt.log == if ok then old(rt.log) + [ImageWritten(h, compact)] else old(rt.log)
    ensures rt.reliable ==> ok
  {
    ok := Attempted(rt);
    if ok {
      rt.Record(ImageWritten(h, compact));
    }
  }

  // The drive is asked to complete the eject request it reported.
  method CompleteEjectRequest(rt: Runtime, id: string, ghost generation: nat)
      returns (ok: bool, completion: OpticalMonitors.Completion)
    requires rt.Tracked() && Permitted(rt.ledger, EjectCompleted(id, generation))
    modifies rt`log, rt`ledger
    ensures rt.Tracked() && rt.ledger == Apply(old(rt.ledger), EjectCompleted(id, generation))
    ensures rt.log == old(rt.log) + [EjectCompleted(id, generation)]
    ensures rt.reliable ==> ok && !completion.NoOutcome?
  {
    ok := Attempted(rt);
    completion := *;
    if rt.reliable && completion.NoOutcome? {
      completion := OpticalMonitors.TrayEjected;
    }
    rt.Record(EjectCompleted(id, generation));
  }

  // Without a valid device nothing is sent.
  method EjectDevice(rt: Runtime, id: string) returns (ok: bool)
    requires rt.Tracked() && rt.ledger.reader.None?
    modifies rt`log, rt`ledger, rt`issued
    ensures rt.Tracked()
    ensures id == "" ==>
              !ok && rt.log == old(rt.log) && rt.ledger == old(rt.ledger) && rt.issued == old(rt.issued)
    ensures id != "" ==>
              && rt.log == old(rt.log) + [EjectIssued(id)] && rt.ledger == Apply(old(rt.ledger), EjectIssued(id))
              && rt.issued == old(rt.issued) + [Ejection(id, old(rt.ledger).live)]
    ensures rt.reliable && id != "" ==> ok
  {
    if id == "" {
      return false;
    }
    ok := Attempted(rt);
    rt.RecordEject(id);
  }
}
