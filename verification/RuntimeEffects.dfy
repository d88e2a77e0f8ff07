// What a request does, by its kind and the state it meets. The runtime plans
// an action first and then executes it (src/app/runtime_commands.c and
// runtime_actions.c); here the outcome is stated without the plan.

module RuntimeEffects {
  import opened Bytes
  import opened SessionLedger
  import opened SessionState
  import opened RuntimeMedia
  import opened RuntimePlayback
  import opened RuntimeSession
  import opened RuntimePreservation
  import opened Phases
  import OpticalMonitors
  import RuntimeCommands

  // Whether everything outside succeeds, and what Xenia can be given.
  datatype Environment = Environment(reliable: bool, exports: bool, images: bool)

  // The ticks until the drives are listed, the pending cleanups are retried and
  // a waiting session is closed.
  datatype Delays = Delays(inventory: nat, pending: nat, cleanup: nat)

  // The parts of the state that requests and cycles are about.
  datatype View = View(
    env: Environment,
    media: Session, process: bool, device: Device, pending: seq<Pending>, hold: bool, acquired: nat,
    log: seq<Event>, issued: seq<Ejection>,
    devices: seq<Entry>, inventoryFailed: bool, physical: Physical,
    phase: Phase, imageSource: bool, imagePath: string, optical: OpticalMonitors.State,
    history: seq<OpticalMonitors.Step>, forceLaunch: bool,
    observationDelay: nat, delays: Delays)

  ghost function ViewOf(rt: Runtime, loop: Loop): View
    reads rt, loop
  {
    View(Environment(rt.reliable, rt.xeniaExports, rt.xeniaImages),
         rt.media, rt.process, rt.opticalDevice, rt.pending, rt.preservationHold, rt.acquired,
         rt.log, rt.issued,
         loop.devices, loop.inventoryFailed, loop.physical,
         loop.phase, loop.imageSource, loop.imagePath, loop.optical,
         loop.history, loop.forceLaunch,
         loop.observationDelay, Delays(loop.inventoryDelay, loop.pendingCleanupDelay, loop.cleanupDelay))
  }

  // The log after everything was stopped and closed without an error.
  function Released(log: seq<Event>, process: bool, media: Session): seq<Event> {
    log + StopEvents(process, false) + CloseEvents(media, NO_SESSION, true)
  }

  // What was open is stopped and closed as far as that succeeds.
  predicate ReleasesTo(v: View, w: View, ready: bool) {
    && w == v.(media := w.media, process := w.process, log := w.log, phase := w.phase, imagePath := w.imagePath)
    && (w.media == v.media || ClosedTo(v.media, w.media)) && (w.media.open ==> w.media == v.media)
    && (if ready then !w.process && !w.media.Owned() && w.log == Released(v.log, v.process, v.media)
        else !v.env.reliable && (v.process || v.media.Owned()))
  }

  predicate DropsHold(v: View, w: View) {
    w == v.(hold := false)
  }

  predicate AsksAttention(v: View, w: View) {
    w == v.(phase := Attention)
  }

  // The current drive is forgotten and looked for afresh.
  predicate Forgets(v: View, w: View) {
    w == v.(device := NO_DEVICE, phase := Discovering, imageSource := false, imagePath := w.imagePath,
            optical := OpticalMonitors.REARMED, history := v.history + [OpticalMonitors.Retried],
            observationDelay := 0)
  }

  // This system can play the open session.
  predicate CanPlay(v: View) {
    && v.media.open
    && (v.media.backend.XeniaBackend? ==>
          v.env.exports || (v.media.disc.Some? && v.env.images && v.media.imagePath != ""))
  }

  predicate Plays(w: View) {
    w.process && w.phase.Playing?
  }

  // The emulator starts, or the runtime asks for attention.
  predicate Starts(v: View, w: View) {
    && SameMedium(v.media, w.media) && w.log == v.log + LaunchEvents(false, w.process, w.media)
    && (Plays(w) || w.phase.Attention?)
    && (v.env.reliable && CanPlay(v) ==> Plays(w))
  }

  // The emulator is stopped, if there is one, and started.
  predicate Restarts(v: View, w: View) {
    && SameMedium(v.media, w.media)
    && (|| (Plays(w) && w.log == v.log + StopEvents(v.process, false) + LaunchEvents(false, true, w.media))
        || w.phase.Attention?)
    && (v.env.reliable && CanPlay(v) ==> Plays(w) && !w.phase.Attention?)
  }

  // The emulator is stopped and not started again.
  predicate Stops(v: View, w: View) {
    && w.media == v.media && w.log == v.log + StopEvents(true, w.process)
    && ((!w.process && w.phase.Ready?) || w.phase.Attention?)
    && (v.env.reliable ==> !w.process && w.phase.Ready?)
  }

  // An eject is sent to the current drive once nothing of the session is left.
  ghost predicate EjectSent(v: View, w: View) {
    && !w.media.Owned() && !w.process
    && w.log == Released(v.log, v.process, v.media) + [EjectIssued(v.device.id)]
    && w.issued == v.issued + [Ejection(v.device.id, PendingHeld(v.pending))]
  }

  ghost predicate Ejects(v: View, w: View, handled: bool) {
    && handled == (v.media.Owned() || v.hold) && !w.hold && w.device == v.device
    && (EjectSent(v, w) || (w.issued == v.issued && w.phase.Attention?))
    && (v.device.id != "" && (v.env.reliable || !v.media.Owned()) ==> EjectSent(v, w))
    && (v.device.id == "" ==> w.issued == v.issued)
    && w.optical == OpticalMonitors.INITIAL && w.observationDelay == (if handled then 5 else 0)
  }

  // The drive is looked at as if its medium were new, and played if it holds one.
  predicate Discovers(v: View, w: View) {
    w == v.(hold := false, forceLaunch := true, optical := OpticalMonitors.REARMED, observationDelay := 0,
            history := v.history + [OpticalMonitors.Retried])
  }

  // The image is opened and its emulator started, after the events `before`.
  predicate OpensImage(v: View, w: View, before: seq<Event>, path: string) {
    var h := Handle(v.acquired, Image);
    && w.imageSource && w.imagePath == path
    && (|| (&& w.media.open && w.media.image && w.media.Token() == Some(h)
            && OpenedAndStarted(before, w.log, h, w.media.backend, w.process)
            && ShowsPrepared(w.phase, w.process, true))
        || (!w.media.open && !w.process && w.phase.Attention?))
    && (v.env.reliable && 0 < |path| < 4096 && (v.env.exports || v.env.images) ==> w.media.open && Plays(w))
  }

  // It matters to the opening only what could be opened before.
  lemma OpensImageFrom(v: View, m: View, w: View, before: seq<Event>, path: string)
    requires m.acquired == v.acquired && m.env == v.env
    requires OpensImage(m, w, before, path)
    ensures OpensImage(v, w, before, path)
  {
  }

  // What is open is released first. An image without a path changes nothing.
  predicate SwitchesToImage(v: View, w: View, path: string) {
    && !w.hold
    && (path == "" ==> w == v.(hold := false, phase := Attention))
    && (path != "" ==>
          || OpensImage(v, w, Released(v.log, v.process, v.media), path)
          || (&& !v.env.reliable && (v.process || v.media.Owned())
              && w.phase.Attention? && w.imageSource == v.imageSource
              && (w.media == v.media || ClosedTo(v.media, w.media))))
  }

  // What is open is released, and the current drive forgotten.
  predicate SwitchesToPhysical(v: View, w: View) {
    && !w.hold
    && (|| (&& w.phase.Discovering? && !w.media.Owned() && !w.process && w.log == Released(v.log, v.process, v.media)
            && w.device == NO_DEVICE && !w.imageSource && w.optical == OpticalMonitors.REARMED
            && w.observationDelay == 0 && w.history == v.history + [OpticalMonitors.Retried])
        || (&& !v.env.reliable && (v.process || v.media.Owned())
            && w.phase.Attention? && w.imageSource == v.imageSource && w.device == v.device
            && w.optical == v.optical && (w.media == v.media || ClosedTo(v.media, w.media))))
  }

  lemma ImageSwitched(v: View, dropped: View, released: View, w: View, path: string, ready: bool)
    requires DropsHold(v, dropped)
    requires if path == "" then !ready && AsksAttention(dropped, w)
             else && ReleasesTo(dropped, released, ready)
                  && if ready then OpensImage(released, w, released.log, path) && w.hold == released.hold
                     else AsksAttention(released, w)
    ensures SwitchesToImage(v, w, path)
    ensures w.media.open ==> w.media == v.media || (w.media.image && w.imageSource && w.imagePath == path)
  {
    hide ClosedTo, Released, Session.Owned;
    if ready {
      OpensImageFrom(v, released, w, released.log, path);
    }
  }

  lemma PhysicalSwitched(v: View, dropped: View, released: View, w: View, ready: bool)
    requires DropsHold(v, dropped) && ReleasesTo(dropped, released, ready)
    requires if ready then Forgets(released, w) else AsksAttention(released, w)
    ensures SwitchesToPhysical(v, w)
  {
    hide ClosedTo, Released, Session.Owned;
  }

  // The disc is opened, written and closed, or the runtime asks for attention.
  predicate Writes(v: View, w: View, path: string, compact: bool) {
    && (|| (&& w.phase.Preserved? && w.hold && !w.media.Owned() && !w.process && w.observationDelay == 0
            && PreservedAs(v.log, w.log, Handle(v.acquired, Drive(v.device.id)), compact))
        || (w.phase.Attention? && !w.media.open))
    && (v.env.reliable && path != "" ==> w.phase.Preserved?)
  }

  // The disc of the session is released, opened again, written and closed.
  predicate Preserves(v: View, w: View, path: string, compact: bool) {
    && (|| (&& w.phase.Preserved? && w.hold && !w.media.Owned() && !w.process && w.observationDelay == 0
            && PreservedAs(Released(v.log, v.process, v.media), w.log, Handle(v.acquired, Drive(v.device.id)), compact))
        || (w.phase.Attention? && !w.media.open) || (w.phase.Attention? && w.media == v.media))
    && (v.env.reliable && path != "" ==> w.phase.Preserved?)
  }

  // The effect of a request. `handled` says whether it ends its cycle.
  ghost predicate Effect(v: View, w: View, request: RuntimeCommands.Request, handled: bool) {
    w.pending == v.pending && w.physical == v.physical
    && match request.kind
    case Start =>
      if v.media.open then !handled && (if v.process then w == v else Starts(v, w))
      else if !v.imageSource then !handled && Discovers(v, w)
      else if v.imagePath != "" then handled && OpensImage(v, w, v.log, v.imagePath)
      else !handled && w == v
    case Restart => !handled && (if v.media.open then Restarts(v, w) else w == v)
    case ApplyDisplay => !handled && (if v.process then Restarts(v, w) else w == v)
    case Close => !handled && (if v.process then Stops(v, w) else w == v)
    case Eject => if v.imageSource then !handled && w == v else Ejects(v, w, handled)
    case Preserve =>
      if !v.imageSource && v.media.open then handled && Preserves(v, w, request.path, !request.redump)
      else !handled && w == v
    case OpenImage => handled && SwitchesToImage(v, w, request.path)
    case UsePhysical => handled && SwitchesToPhysical(v, w)
    case _ => !handled && w == v
  }
}
