// What one cycle of the worker does to the state, and what that means for the
// requests it is given: src/app/runtime.c.

module RuntimeCycles {
  import opened Bytes
  import opened SessionLedger
  import opened SessionState
  import opened RuntimeMedia
  import opened RuntimePlayback
  import opened RuntimeDrives
  import opened RuntimeSession
  import opened RuntimePhysical
  import opened RuntimeEffects
  import opened RuntimePreservation
  import opened Phases
  import OpticalMonitors
  import PhysicalMonitors
  import RuntimeCommands

  // What the shared state and the rest of the program contribute to a cycle:
  // whether the runtime is stopping at each look, whether a setup request was
  // executed or the settings could not be saved, the drive selections found,
  // the request taken, the settings read, and what the outside says of the
  // session and of the connection of the drive.
  datatype Inputs = Inputs(
    busyWithSetup: bool, flushFailed: bool, stopping: bool, firstSelection: Option<string>,
    secondSelection: Option<string>, stoppingAfterInventory: bool, stoppingAfterDrives: bool,
    stoppingAfterCleanup: bool,
    request: RuntimeCommands.Request, selectedDrive: string, autoStart: bool,
    sessionFailed: bool, statusKnown: bool, connected: bool, exportFailed: bool)

  // ---------------------------------------------------------------------
  // The drive loop

  // Nothing is owned any more, and the new drive is looked at afresh.
  predicate StartsOver(v: View, w: View) {
    && !w.media.Owned() && w.device == NO_DEVICE && w.physical == FRESH_PHYSICAL && w.phase.Discovering?
    && !w.imageSource && !w.hold && !w.forceLaunch && w.observationDelay == 0 && w.delays == Delays(0, 25, 0)
    && w.optical == OpticalMonitors.REARMED && w.history == v.history + [OpticalMonitors.Retried]
  }

  // The selection has been accepted.
  predicate Accepts(v: View, w: View) {
    && w.media == v.media && w.pending == v.pending && w.log == v.log
    && if v.media.Owned() then
         w == v.(hold := false, devices := w.devices, delays := Delays(0, 25, v.delays.cleanup))
       else StartsOver(v, w)
  }

  // A drive is selected: refused, or after what is open made way for it.
  predicate Selects(v: View, w: View, id: string) {
    if v.process || !ValidId(id) || v.phase.Preserving? then w == v.(phase := Attention)
    else if GivesWay(v.media, v.device, id, v.imageSource) then
      && MadeWay(w.phase.Discovering?, v.device, v.media, v.pending, w.pending, v.log, w.log)
      && (if w.phase.Discovering? then StartsOver(v, w)
          else w.phase.Attention? && w.pending == v.pending && ClosedTo(v.media, w.media))
      && (v.env.reliable ==> w.phase.Discovering?)
    else
      && w.log == v.log && w.pending == v.pending
      && (if v.media.Owned() then
            w == v.(hold := false, devices := w.devices, delays := Delays(0, 25, v.delays.cleanup))
          else StartsOver(v, w))
  }

  // What is open makes way for the drive `id`, unless that is refused.
  predicate Changes(v: View, w: View, id: string, ok: bool) {
    if v.process || !ValidId(id) || v.phase.Preserving? then !ok && w == v
    else if GivesWay(v.media, v.device, id, v.imageSource) then
      && w == v.(media := w.media, pending := w.pending, log := w.log, devices := w.devices)
      && MadeWay(ok, v.device, v.media, v.pending, w.pending, v.log, w.log)
      && (if ok then w.media == NO_SESSION else w.pending == v.pending && ClosedTo(v.media, w.media))
      && (v.env.reliable ==> ok)
    else ok && w == v.(devices := w.devices)
  }

  lemma DriveSelected(v: View, changed: View, w: View, id: string, ok: bool)
    requires Changes(v, changed, id, ok)
    requires if ok then Accepts(changed, w) else AsksAttention(changed, w)
    ensures Selects(v, w, id)
  {
    hide Selects, Changes, Accepts, StartsOver, GivesWay, ValidId;
    if v.process || !ValidId(id) || v.phase.Preserving? {
      SelectionRefused(v, changed, w, id, ok);
    } else if GivesWay(v.media, v.device, id, v.imageSource) {
      SessionGaveWay(v, changed, w, id, ok);
    } else {
      SessionKept(v, changed, w, id, ok);
    }
  }

  lemma SelectionRefused(v: View, changed: View, w: View, id: string, ok: bool)
    requires v.process || !ValidId(id) || v.phase.Preserving?
    requires Changes(v, changed, id, ok)
    requires if ok then Accepts(changed, w) else AsksAttention(changed, w)
    ensures Selects(v, w, id)
  {
    hide MadeWay, ClosedTo, GivesWay, ValidId, StartsOver;
  }

  lemma SessionGaveWay(v: View, changed: View, w: View, id: string, ok: bool)
    requires !v.process && ValidId(id) && !v.phase.Preserving? && GivesWay(v.media, v.device, id, v.imageSource)
    requires Changes(v, changed, id, ok)
    requires if ok then Accepts(changed, w) else AsksAttention(changed, w)
    ensures Selects(v, w, id)
  {
    hide MadeWay, ClosedTo, GivesWay, ValidId;
  }

  lemma SessionKept(v: View, changed: View, w: View, id: string, ok: bool)
    requires !v.process && ValidId(id) && !v.phase.Preserving? && !GivesWay(v.media, v.device, id, v.imageSource)
    requires Changes(v, changed, id, ok)
    requires if ok then Accepts(changed, w) else AsksAttention(changed, w)
    ensures Selects(v, w, id)
  {
    hide MadeWay, ClosedTo, GivesWay, ValidId, Session.Owned;
  }

  // The drives are listed when that is due.
  predicate Refreshes(v: View, w: View) {
    if v.delays.inventory > 0 then w == v.(delays := v.delays.(inventory := v.delays.inventory - 1))
    else
      && w == v.(log := w.log, devices := w.devices, inventoryFailed := w.inventoryFailed,
              delays := v.delays.(inventory := 5))
      && |w.log| == |v.log| + 1 && v.log < w.log && w.log[|v.log|].Inventoried?
      && w.inventoryFailed == w.log[|v.log|].found.None?
      && (w.inventoryFailed ==> w.devices == Disconnected(v.devices))
      && (!w.inventoryFailed ==> ListsFound(w.log[|v.log|].found.value, w.devices))
  }

  // Every pending cleanup is tried once more when that is due.
  ghost predicate Retries(v: View, w: View) {
    if v.delays.pending > 0 then w == v.(delays := v.delays.(pending := v.delays.pending - 1))
    else
      && w == v.(log := w.log, pending := w.pending, devices := w.devices,
              delays := v.delays.(pending := 5))
      && v.log <= w.log && OnlyReleased(v.pending, w.pending) && w.devices == Described(v.devices, w.pending)
      && (v.env.reliable && !v.media.open && !v.process ==>
            forall i :: 0 <= i < |w.pending| ==> !w.pending[i].media.Owned())
  }

  // A selection ends the cycle, and so does stopping.
  ghost predicate DriveStep(v: View, w: View, i: Inputs) {
    if i.firstSelection.Some? then Selects(v, w, i.firstSelection.value)
    else
      exists r: View ::
        && Refreshes(v, r)
        && if i.stoppingAfterInventory then w == r
           else if i.secondSelection.Some? then Selects(r, w, i.secondSelection.value)
           else Retries(r, w)
  }

  predicate EndedByDrives(i: Inputs) {
    i.firstSelection.Some? || i.stoppingAfterInventory || i.secondSelection.Some?
  }

  // ---------------------------------------------------------------------
  // The cleanup cycle

  // The waiting medium is closed, after a new look when an eject waits for
  // that; the eject is completed exactly when that look still shows it and the
  // close reports no error.
  ghost predicate CleansAs(before: seq<Event>, after: seq<Event>, media: Session, left: Session, clean: bool,
                           physical: Physical)
  {
    exists look: seq<Event> ::
      && (if physical.cleanup.EjectCleanup? && media.exported.Some? then LookAt(look, media.exported.value)
          else look == [])
      && after == before + look + CloseEvents(media, left, clean)
                  + (if && clean && physical.cleanup.EjectCleanup? && media.exported.Some?
                        && AsksStill(look, media.exported.value, physical.generation)
                     then [EjectCompleted(physical.ejectDevice.id, physical.generation)] else [])
  }

  // What the drive monitor is told when the waiting medium is closed.
  predicate DutyOf(physical: Physical, log: seq<Event>, before: OpticalMonitors.State, after: OpticalMonitors.State) {
    match physical.cleanup
    case NoCleanup => after == before
    case Rearm => after == OpticalMonitors.INITIAL
    case RequireRetry => after == OpticalMonitors.AfterFailure(before, OpticalMonitors.Terminal)
    case EjectCleanup =>
      if JustCompleted(log, physical) then after in {OpticalMonitors.INITIAL, OpticalMonitors.BLOCKED}
      else after == OpticalMonitors.INITIAL
  }

  // The medium waits to be closed: until its delay is over nothing happens.
  ghost predicate CleanupStep(v: View, w: View) {
    if v.delays.cleanup > 0 then w == v.(delays := v.delays.(cleanup := v.delays.cleanup - 1))
    else
      (&& w.issued == v.issued && w.pending == v.pending && w.process == v.process && w.device == v.device
        && exists clean: bool ::
             && CleansAs(v.log, w.log, v.media, w.media, clean, v.physical)
             && (v.env.reliable ==> clean)
             && if clean
                then && w.media == NO_SESSION && w.physical == FRESH_PHYSICAL && w.observationDelay == 0
                     && DutyOf(v.physical, w.log, v.optical, w.optical)
                else && w.phase.Attention? && w.optical == v.optical && w.history == v.history
                     && w.delays.cleanup == 5)
  }

  // ---------------------------------------------------------------------
  // The idle and the active cycle

  // One attempt to open the medium of the current drive, whose failure its
  // monitor is told of.
  predicate Tries(v: View, w: View, wanted: bool) {
    var h := Handle(v.acquired, Drive(v.device.id));
    if w.media.open then
      && w.history == v.history && w.media.Token() == Some(h) && ShowsPrepared(w.phase, w.process, wanted)
      && OpenedAndStarted(v.log, w.log, h, w.media.backend, w.process)
      && (v.env.reliable ==> if wanted then Plays(w) else w.phase.Ready?)
    else
      && (|| w.history == v.history + [OpticalMonitors.Failed(OpticalMonitors.Transient)]
          || w.history == v.history + [OpticalMonitors.Failed(OpticalMonitors.Terminal)])
      && !w.process && w.phase.Attention?
      && (v.env.reliable && v.device.id != "" ==> !v.env.exports && NeedsXenia(v.log, w.log, h))
  }

  // The monitor is shown the current drive; its medium is opened exactly when
  // that starts an attempt.
  predicate Looks(v: View, w: View, presence: OpticalMonitors.Presence, wanted: bool) {
    var seen := v.history + [OpticalMonitors.Observed(presence)];
    if OpticalMonitors.StartsAttempt(v.optical, presence) then 
      Tries(v.(history := seen, optical := OpticalMonitors.AfterObservation(v.optical, presence)), w, wanted)
    else w.history == seen && w.log == v.log && !w.media.Owned() && !w.process
  }

  // The current drive is resolved and shown to its monitor, which is reset
  // when it is another drive than before.
  ghost predicate Observes(v: View, w: View, selected: string, autoStart: bool) {
    if !DriveAvailable(v.devices, v.inventoryFailed, selected) then
      && w.history == v.history + [OpticalMonitors.Unobserved]
      && w.log == v.log && !w.media.Owned() && !w.process
    else
      var told := v.history + (if w.device.id == v.device.id then [] else [OpticalMonitors.Retried]);
      && ChosenDrive(v.devices, v.device.id, selected, w.device)
      && Looks(v.(device := w.device, history := told, optical := OpticalMonitors.Run(OpticalMonitors.INITIAL, told)), w,
            OpticalMonitors.Presence(true, w.device.mediaKnown, w.device.mediaPresent), autoStart || v.forceLaunch)
  }

  ghost predicate IdleStep(v: View, w: View, i: Inputs) {
    && w.issued == v.issued && w.pending == v.pending && v.log <= w.log && v.history <= w.history
    && if v.imageSource || v.hold then w == v
       else if v.observationDelay > 0 then w == v.(observationDelay := v.observationDelay - 1)
       else Observes(v, w.(observationDelay := 0), i.selectedDrive, i.autoStart) && w.observationDelay == 5
  }

  // The emulator is asked whether it still runs.
  predicate PlaybackPolled(v: View, p: View) {
    && p == v.(log := p.log, process := p.process, phase := p.phase)
    && if !v.process then p == v
       else
         && PolledTo(v.log, p.log, p.process)
         && (p.phase.Attention? || p.phase == (if p.process then v.phase else Ready))
         && (v.env.reliable ==>
               && p.log == v.log + (if p.process then [Polled(true)] else [Polled(false), Reaped])
               && p.phase == if p.process then v.phase else Ready)
  }

  // The watch over the physical session that exports `h`.
  ghost predicate WatchStep(v: View, w: View, h: Handle, i: Inputs) {
    if !v.physical.cleanup.NoCleanup? then
      EndsAs(v.log, w.log, h, StopEvents(v.process, w.process), w.process, w.media.Owned(),
             v.physical.cleanup.EjectCleanup?, v.physical.ejectDevice.id, v.physical.generation)
    else
      exists ended: bool ::
        && Watches(v.physical, w.physical, v.log, w.log, h, v.process, w.process, w.media.Owned(),
                   i.sessionFailed, i.statusKnown, i.connected, v.device, ended)
        && if ended then (w.process || !w.media.open) && (v.env.reliable ==> !w.process && !w.media.Owned())
           else w.media == v.media && w.process == v.process
  }

  // An image is only checked for failures; a physical session is watched.
  ghost predicate SessionStep(v: View, w: View, i: Inputs) {
    && w.issued == v.issued && w.pending == v.pending && w.device == v.device
    && v.log <= w.log && v.history <= w.history && (w.process ==> v.process)
    && if v.imageSource then
         w == v.(physical := FRESH_PHYSICAL,
                 phase := if v.media.exported.Some? && i.exportFailed then Attention else v.phase)
       else v.media.exported.Some? && WatchStep(v, w, v.media.exported.value, i)
  }

  ghost predicate ActiveStep(v: View, w: View, i: Inputs) {
    exists p: View :: PlaybackPolled(v, p) && SessionStep(p, w, i)
  }

  // ---------------------------------------------------------------------
  // The cycle

  // The rest of a cycle when no session waits to be closed: the request has
  // its effect, and unless that ends the cycle the media are looked after.
  ghost predicate OwnedStep(v: View, w: View, i: Inputs) {
    if RuntimeCommands.IsSetup(i.request.kind) then w == v
    else
      exists e: View, handled: bool ::
        && Effect(v, e, i.request, handled)
        && if handled then w == e
           else if e.media.open then ActiveStep(e, w, i)
           else IdleStep(e.(physical := FRESH_PHYSICAL), w, i)
  }

  predicate Waits(media: Session) {
    media.Owned() && !media.open
  }

  // Nothing waits, so that the next session that does is closed at once.
  predicate Settles(v: View, w: View) {
    w == v.(delays := v.delays.(cleanup := 0))
  }

  // A session that waits to be closed comes before every request.
  ghost predicate MediaStep(v: View, w: View, i: Inputs) {
    if Waits(v.media) then CleanupStep(v, w)
    else if i.stoppingAfterCleanup then Settles(v, w)
    else exists d: View :: Settles(v, d) && OwnedStep(d, w, i)
  }

  // Setup, failed saves and stopping end the cycle before any medium is
  // touched, and a session that waits to be closed comes before every request.
  ghost predicate CycleStep(v: View, w: View, i: Inputs) {
    if i.busyWithSetup then w == v
    else if i.flushFailed then w == v.(phase := Attention)
    else if i.stopping then w == v
    else
      exists d: View ::
        && DriveStep(v, d, i)
        && if EndedByDrives(i) || i.stoppingAfterDrives then w == d else MediaStep(d, w, i)
  }

  // ---------------------------------------------------------------------
  // What a cycle does with the request it is given

  predicate Newly(before: seq<Event>, after: seq<Event>, event: Event) {
    exists k :: |before| <= k < |after| && after[k] == event
  }

  // Nothing keeps the cycle from its request.
  predicate Reaches(v: View, i: Inputs) {
    && !i.busyWithSetup && !i.flushFailed && !i.stopping && !EndedByDrives(i) && !i.stoppingAfterDrives
    && !i.stoppingAfterCleanup && !Waits(v.media)
  }

  // The state in which the request is executed differs only by what the drive
  // loop has done, and the rest of the cycle adds to its effect.
  lemma RequestIsExecuted(v: View, w: View, i: Inputs) returns (d: View, e: View, handled: bool)
    requires CycleStep(v, w, i) && Reaches(v, i) && !RuntimeCommands.IsSetup(i.request.kind)
    ensures d == v.(log := d.log, pending := d.pending, devices := d.devices, inventoryFailed := d.inventoryFailed,
                    delays := d.delays)
    ensures v.log <= d.log && OnlyReleased(v.pending, d.pending)
    ensures Effect(d, e, i.request, handled)
    ensures handled ==> w == e
    ensures w.issued == e.issued && w.pending == e.pending && e.log <= w.log && e.history <= w.history
    ensures !handled && !e.media.open ==> IdleStep(e.(physical := FRESH_PHYSICAL), w, i)
    ensures !handled && e.media.open ==> ActiveStep(e, w, i)
  {
    hide Effect, ActiveStep, IdleStep, CycleStep, Reaches;
    d := RequestIsReached(v, w, i);
    var f: View, ended: bool :|
      && Effect(d, f, i.request, ended)
      && if ended then w == f
         else if f.media.open then ActiveStep(f, w, i)
         else IdleStep(f.(physical := FRESH_PHYSICAL), w, i);
    e, handled := f, ended;
    StepsAdd(e, w, i);
  }

  lemma RequestIsReached(v: View, w: View, i: Inputs) returns (d: View)
    requires CycleStep(v, w, i) && Reaches(v, i)
    ensures d == v.(log := d.log, pending := d.pending, devices := d.devices, inventoryFailed := d.inventoryFailed,
                    delays := d.delays)
    ensures v.log <= d.log && OnlyReleased(v.pending, d.pending)
    ensures OwnedStep(d, w, i)
  {
    hide OwnedStep, Selects, DriveStep, CleanupStep, Settles;
    var polled: View :| DriveStep(v, polled, i)
      && if EndedByDrives(i) || i.stoppingAfterDrives then w == polled else MediaStep(polled, w, i);
    NothingSelected(v, polled, i);
    var m: View :| Settles(polled, m) && OwnedStep(m, w, i);
    Settled(polled, m);
    d := m;
  }

  lemma NothingSelected(v: View, w: View, i: Inputs)
    requires DriveStep(v, w, i) && !EndedByDrives(i)
    ensures w == v.(log := w.log, pending := w.pending, devices := w.devices, inventoryFailed := w.inventoryFailed,
                    delays := w.delays)
    ensures v.log <= w.log && OnlyReleased(v.pending, w.pending)
  {
    hide Refreshes, Retries;
    var r: View :| Refreshes(v, r) && Retries(r, w);
    RefreshAdds(v, r);
    RetryAdds(r, w);
  }

  lemma RefreshAdds(v: View, w: View)
    requires Refreshes(v, w)
    ensures w == v.(log := w.log, devices := w.devices, inventoryFailed := w.inventoryFailed, delays := w.delays)
    ensures v.log <= w.log
  {
    hide ListsFound, Disconnected;
  }

  lemma RetryAdds(v: View, w: View)
    requires Retries(v, w)
    ensures w == v.(log := w.log, pending := w.pending, devices := w.devices, delays := w.delays)
    ensures v.log <= w.log && OnlyReleased(v.pending, w.pending)
  {
    hide Described;
  }

  lemma Settled(v: View, w: View)
    requires Settles(v, w)
    ensures w == v.(delays := w.delays)
  {
  }

  lemma StepsAdd(e: View, w: View, i: Inputs)
    ensures ActiveStep(e, w, i) ==>
              w.issued == e.issued && w.pending == e.pending && e.log <= w.log && e.history <= w.history
    ensures IdleStep(e.(physical := FRESH_PHYSICAL), w, i) ==>
              w.issued == e.issued && w.pending == e.pending && e.log <= w.log && e.history <= w.history
  {
    hide WatchStep, Observes, PlaybackPolled, SessionStep;
    if ActiveStep(e, w, i) {
      var p: View :| PlaybackPolled(e, p) && SessionStep(p, w, i);
      PollAdds(e, p);
      SessionAdds(p, w, i);
    }
  }

  lemma PollAdds(v: View, p: View)
    requires PlaybackPolled(v, p)
    ensures p.issued == v.issued && p.pending == v.pending && v.log <= p.log && p.history == v.history
  {
  }

  lemma SessionAdds(v: View, w: View, i: Inputs)
    requires SessionStep(v, w, i)
    ensures w.issued == v.issued && w.pending == v.pending && v.log <= w.log && v.history <= w.history
  {
    hide WatchStep;
  }

  // An eject is sent to the drive that is current when the cycle begins, if
  // nothing is open or everything outside succeeds.
  lemma EjectIsSent(v: View, w: View, i: Inputs)
    requires CycleStep(v, w, i) && Reaches(v, i) && i.request.kind.Eject?
    requires !v.imageSource && v.device.id != "" && (v.env.reliable || !v.media.Owned())
    ensures w.issued == v.issued + [Ejection(v.device.id, PendingHeld(w.pending))]
    ensures Newly(v.log, w.log, EjectIssued(v.device.id))
  {
    hide ActiveStep, IdleStep, CycleStep, StopEvents, CloseEvents;
    var d, e, handled := RequestIsExecuted(v, w, i);
    assert EjectSent(d, e);
    assert w.log[|e.log| - 1] == EjectIssued(v.device.id);
  }

  // A running emulator is stopped and stays stopped.
  lemma CloseStopsPlayback(v: View, w: View, i: Inputs)
    requires CycleStep(v, w, i) && Reaches(v, i) && i.request.kind.Close?
    requires v.process && v.media.open
    ensures v.env.reliable ==> !w.process && Newly(v.log, w.log, Reaped)
  {
    hide IdleStep, CycleStep;
    var d, e, handled := RequestIsExecuted(v, w, i);
    if v.env.reliable {
      assert w.log[|e.log| - 1] == Reaped;
    }
  }

  // A session that does not play starts to play.
  lemma StartLaunches(v: View, w: View, i: Inputs)
    requires CycleStep(v, w, i) && Reaches(v, i) && i.request.kind.Start?
    requires v.env.reliable && CanPlay(v) && !v.process && v.media.WellFormed()
    ensures Newly(v.log, w.log, Launched(v.media.Token().value))
  {
    hide IdleStep, ActiveStep, CycleStep;
    var d, e, handled := RequestIsExecuted(v, w, i);
    assert w.log[|e.log| - 1] == Launched(v.media.Token().value);
  }

  // Without a session and without an image, the drive is looked at in the same
  // cycle, as if its medium were new.
  lemma StartLooksForDisc(v: View, w: View, i: Inputs)
    requires CycleStep(v, w, i) && Reaches(v, i) && i.request.kind.Start?
    requires !v.media.open && !v.imageSource
    ensures v.history + [OpticalMonitors.Retried] < w.history
  {
    hide CycleStep, ActiveStep;
    var d, e, handled := RequestIsExecuted(v, w, i);
  }

  // The emulator is stopped, if it runs, and started again.
  lemma RestartLaunches(v: View, w: View, i: Inputs)
    requires CycleStep(v, w, i) && Reaches(v, i) && v.env.reliable && CanPlay(v) && v.media.WellFormed()
    requires i.request.kind.Restart? || (i.request.kind.ApplyDisplay? && v.process)
    ensures Newly(v.log, w.log, Launched(v.media.Token().value))
    ensures v.process ==> Newly(v.log, w.log, Reaped)
  {
    hide IdleStep, ActiveStep, CycleStep;
    var d, e, handled := RequestIsExecuted(v, w, i);
    assert w.log[|e.log| - 1] == Launched(v.media.Token().value);
    assert v.process ==> w.log[|e.log| - 2] == Reaped;
  }

  // The image is open and plays, whatever was open before.
  lemma ImageIsOpened(v: View, w: View, i: Inputs)
    requires CycleStep(v, w, i) && Reaches(v, i) && i.request.kind.OpenImage?
    requires v.env.reliable && 0 < |i.request.path| < 4096 && (v.env.exports || v.env.images)
    ensures w.media.open && w.media.image && w.media.Token() == Some(Handle(v.acquired, Image))
    ensures w.imageSource && w.imagePath == i.request.path && Plays(w)
  {
    hide IdleStep, ActiveStep, CycleStep;
    var d, e, handled := RequestIsExecuted(v, w, i);
  }

  // The image shown last is opened again.
  lemma StartReopensImage(v: View, w: View, i: Inputs)
    requires CycleStep(v, w, i) && Reaches(v, i) && i.request.kind.Start?
    requires !v.media.open && v.imageSource && 0 < |v.imagePath| < 4096
    requires v.env.reliable && (v.env.exports || v.env.images)
    ensures w.media.open && w.media.image && w.imagePath == v.imagePath && Plays(w)
  {
    hide IdleStep, ActiveStep, CycleStep;
    var d, e, handled := RequestIsExecuted(v, w, i);
  }

  // What is open is released, and the drive forgotten.
  lemma PhysicalIsSelected(v: View, w: View, i: Inputs)
    requires CycleStep(v, w, i) && Reaches(v, i) && i.request.kind.UsePhysical?
    requires v.env.reliable || (!v.process && !v.media.Owned())
    ensures w.phase.Discovering? && !w.imageSource && !w.media.Owned() && !w.process && w.device == NO_DEVICE
    ensures w.history == v.history + [OpticalMonitors.Retried]
  {
    hide IdleStep, ActiveStep, CycleStep;
    var d, e, handled := RequestIsExecuted(v, w, i);
  }

  // The disc of the session is written, whole or compact, and released.
  lemma DiscIsPreserved(v: View, w: View, i: Inputs)
    requires CycleStep(v, w, i) && Reaches(v, i) && i.request.kind.Preserve?
    requires v.env.reliable && v.media.open && !v.imageSource && i.request.path != ""
    ensures w.phase.Preserved? && w.hold && !w.media.Owned() && !w.process
    ensures Newly(v.log, w.log, ImageWritten(Handle(v.acquired, Drive(v.device.id)), !i.request.redump))
  {
    hide IdleStep, ActiveStep, CycleStep, StopEvents, CloseEvents;
    var d, e, handled := RequestIsExecuted(v, w, i);
    assert w.log[|w.log| - 2] == ImageWritten(Handle(v.acquired, Drive(v.device.id)), !i.request.redump);
  }

  // The states between the cycles of a run.
  ghost predicate Cycles(trace: seq<View>, cycles: seq<Inputs>) {
    && |trace| == |cycles| + 1
    && forall k :: 0 <= k < |cycles| ==> CycleStep(trace[k], trace[k + 1], cycles[k])
  }
}
