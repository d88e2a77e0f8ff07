// The state of the session runtime: the fields of src/app/runtime_internal.h
// and src/app/runtime_loop.h that decide who owns which medium, and the
// invariant that every operation keeps.

module SessionState {
  import opened Bytes
  import opened SessionLedger
  import opened Phases
  import OpticalMonitors
  import PhysicalMonitors

  const MAX_DEVICES: nat := 32

  datatype Backend = NoBackend | XemuBackend | XeniaBackend | DolphinBackend

  datatype Owner = NoOwner | XemuOwner | XeniaOwner | DolphinOwner

  const NO_DEVICE: Device := Device("", false, false, false, false)

  // A media session. The medium sits in the export, in the validated disc or
  // in the source retained for another attempt to close it.
  datatype Session = Session(
    open: bool, exported: Option<Handle>, disc: Option<Handle>, retained: Option<Handle>,
    image: bool, backend: Backend, imagePath: string)
  {
    predicate Owned() {
      open || exported.Some? || disc.Some? || retained.Some?
    }

    function Token(): Option<Handle> {
      if exported.Some? then exported else if disc.Some? then disc else retained
    }

    predicate WellFormed() {
      && (exported.Some? ==> disc.None? && retained.None?)
      && (disc.Some? ==> retained.None?)
      && (open ==> exported.Some? || disc.Some?)
      && (open ==> image == Token().value.origin.Image?)
      && (open && disc.Some? ==> image && backend.XeniaBackend?)
      && (open ==> !backend.NoBackend?)
    }
  }

  // The C code clears a session with memset, so an empty one reads as physical.
  const NO_SESSION: Session := Session(false, None, None, None, false, NoBackend, "")

  datatype Pending = Pending(device: Device, media: Session)

  const NO_PENDING: Pending := Pending(NO_DEVICE, NO_SESSION)

  datatype Entry = Entry(device: Device, connected: bool, cleanupPending: bool)

  datatype Cleanup = NoCleanup | Rearm | RequireRetry | EjectCleanup

  datatype Physical = Physical(
    monitor: PhysicalMonitors.State, watched: Option<Handle>, deviceDelay: nat, mediaDelay: nat,
    generation: nat, ejectDrive: bool, ejectDevice: Device, cleanup: Cleanup)

  const FRESH_PHYSICAL: Physical :=
    Physical(PhysicalMonitors.INITIAL, None, 0, 0, 0, false, NO_DEVICE, NoCleanup)

  function Held(session: Session): set<Handle> {
    if session.Token().Some? then {session.Token().value} else {}
  }

  // ---------------------------------------------------------------------
  // The table of pending cleanups

  // A slot that owns a medium knows its device; the medium is of that device,
  // or of an image whose failed open left the session reading as physical.
  predicate Parked(p: Pending) {
    && p.media.WellFormed() && !p.media.open
    && (p.media.Owned() ==>
          && p.device.id != ""
          && (p.media.Token().value.origin.Image? || p.media.Token().value.origin == Drive(p.device.id)))
  }

  predicate Distinct(p: Pending, q: Pending) {
    p.media.Owned() && q.media.Owned() ==> p.device.id != q.device.id && p.media.Token() != q.media.Token()
  }

  ghost predicate Table(pending: seq<Pending>) {
    && |pending| == MAX_DEVICES
    && (forall i :: 0 <= i < |pending| ==> Parked(pending[i]))
    && (forall i, j :: 0 <= i < j < |pending| ==> Distinct(pending[i], pending[j]))
  }

  ghost function PendingHeld(pending: seq<Pending>): set<Handle> {
    set i, h | 0 <= i < |pending| && h in Held(pending[i].media) :: h
  }

  // Whether some owned slot is for the device `id`.
  predicate PendingFor(pending: seq<Pending>, id: string) {
    id != "" && exists i :: 0 <= i < |pending| && pending[i].media.Owned() && pending[i].device.id == id
  }

  lemma HeldByPending(pending: seq<Pending>, h: Handle)
    ensures h in PendingHeld(pending) <==> exists i :: 0 <= i < |pending| && h in Held(pending[i].media)
  {
  }

  lemma TableAfterParking(pending: seq<Pending>, i: nat, p: Pending)
    requires Table(pending) && i < |pending| && !pending[i].media.Owned()
    requires Parked(p) && p.media.Owned() && !PendingFor(pending, p.device.id)
    requires Held(p.media) !! PendingHeld(pending)
    ensures Table(pending[i := p])
    ensures PendingHeld(pending[i := p]) == PendingHeld(pending) + Held(p.media)
  {
    var after := pending[i := p];
    assert p.media.Token().value in Held(p.media);
    forall j | 0 <= j < |pending| && j != i
      ensures Distinct(pending[j], p) && Distinct(p, pending[j])
    {
      if pending[j].media.Owned() {
        assert pending[j].media.Token().value in Held(pending[j].media);
        HeldByPending(pending, pending[j].media.Token().value);
      }
    }
    forall h ensures h in PendingHeld(after) <==> h in PendingHeld(pending) || h in Held(p.media) {
      HeldByPending(pending, h);
      HeldByPending(after, h);
      if h in PendingHeld(pending) {
        var j :| 0 <= j < |pending| && h in Held(pending[j].media);
        assert after[j] == pending[j];
      }
      if h in PendingHeld(after) {
        var j :| 0 <= j < |after| && h in Held(after[j].media);
        assert j != i ==> pending[j] == after[j];
      }
      assert after[i] == p;
    }
  }

  lemma TableAfterRelease(pending: seq<Pending>, i: nat, media: Session)
    requires Table(pending) && i < |pending| && !media.Owned()
    ensures var after := pending[i := pending[i].(media := media)];
            && Table(after)
            && PendingHeld(after) == PendingHeld(pending) - Held(pending[i].media)
  {
    var after := pending[i := pending[i].(media := media)];
    forall h ensures h in PendingHeld(after) <==> h in PendingHeld(pending) && h !in Held(pending[i].media) {
      HeldByPending(pending, h);
      HeldByPending(after, h);
      if h in PendingHeld(pending) && h !in Held(pending[i].media) {
        var j :| 0 <= j < |pending| && h in Held(pending[j].media);
        assert after[j] == pending[j];
      }
      if h in PendingHeld(after) {
        var j :| 0 <= j < |after| && h in Held(after[j].media);
        assert j != i && pending[j] == after[j];
        assert if i < j then Distinct(pending[i], pending[j]) else Distinct(pending[j], pending[i]);
      }
    }
  }

  // ---------------------------------------------------------------------
  // The invariant

  // Every live handle has exactly one owner. `loose` holds the handles that
  // are in local variables of the operation under way.
  ghost predicate Custody(live: set<Handle>, media: Session, pending: seq<Pending>, loose: set<Handle>) {
    && media.WellFormed() && Table(pending)
    && Held(media) !! PendingHeld(pending) && Held(media) !! loose && PendingHeld(pending) !! loose
    && live == Held(media) + PendingHeld(pending) + loose
  }

  lemma CustodyWithNew(live: set<Handle>, media: Session, pending: seq<Pending>, loose: set<Handle>, h: Handle)
    requires Custody(live, media, pending, loose) && h !in live
    ensures Custody(live + {h}, media, pending, loose + {h})
  {
  }

  lemma CustodyWithout(live: set<Handle>, media: Session, pending: seq<Pending>, loose: set<Handle>, h: Handle)
    requires Custody(live, media, pending, loose) && h in loose
    ensures Custody(live - {h}, media, pending, loose - {h})
  {
  }

  // The session lets go of its medium, or takes up a loose one.
  lemma CustodyOfSession(live: set<Handle>, media: Session, pending: seq<Pending>, loose: set<Handle>, after: Session)
    requires Custody(live, media, pending, loose) && after.WellFormed()
    requires Held(after) <= Held(media) + loose
    ensures var kept := live - (Held(media) - Held(after));
            Custody(kept, after, pending, loose - Held(after))
    ensures Held(media) == {} ==> live - (Held(media) - Held(after)) == live
  {
  }

  // The process slot and the reader of the log agree, and an emulator reads
  // the open session.
  predicate PlaybackOk(process: bool, media: Session, reader: Option<Handle>) {
    && (process <==> reader.Some?)
    && (process ==> media.open && reader == media.Token())
  }

  // A physical medium of the session is of the current device, and that
  // device is owed no restoration.
  predicate DriveOk(device: Device, media: Session, pending: seq<Pending>) {
    media.Token().Some? && media.Token().value.origin.Drive? ==>
      && device.id != "" && media.Token().value.origin == Drive(device.id) && !PendingFor(pending, device.id)
  }

  class Runtime {
    // Whether every call into code outside of the model succeeds in this run.
    const reliable: bool
    // What the Xenia of this system can be given: an export, an image file.
    const xeniaExports: bool
    const xeniaImages: bool
    var media: Session
    var owner: Owner
    var process: bool
    var storage: bool
    var opticalDevice: Device
    var driveKnown: bool
    var pending: seq<Pending>
    var preservationHold: bool
    var terminalFailed: bool
    var flushAttempted: bool
    // The number of handles opened so far, which names the next one.
    var acquired: nat
    ghost var log: seq<Event>
    // The log as it was when the cycle or cleanup under way began.
    ghost var begun: seq<Event>
    ghost var ledger: Ledger
    // The explicit ejects sent so far, and how often a drive was to be opened.
    ghost var issued: seq<Ejection>
    ghost var driveOpens: nat

    ghost predicate Tracked()
      reads this`log, this`begun, this`ledger, this`acquired, this`issued, this`driveOpens
    {
      && begun <= log
      && Legal(log) && ledger == Replay(log) && ledger.next == acquired
      && issued == Ejections(log) && driveOpens == DriveOpens(log)
    }

    // What holds even between the moment a backend fills or empties the
    // process slot and the moment its owner is put right.
    ghost predicate Settled(loose: set<Handle>)
      reads this
    {
      && Tracked()
      && Custody(ledger.live, media, pending, loose)
      && PlaybackOk(process, media, ledger.reader)
      && DriveOk(opticalDevice, media, pending)
    }

    ghost predicate Valid(loose: set<Handle>)
      reads this
    {
      Settled(loose) && (owner.NoOwner? <==> !process)
    }

    constructor (reliable: bool, xeniaExports: bool, xeniaImages: bool)
      ensures this.reliable == reliable && this.xeniaExports == xeniaExports && this.xeniaImages == xeniaImages
      ensures Valid({}) && log == [] && ledger == START && acquired == 0 && media == NO_SESSION && !process
      ensures issued == [] && driveOpens == 0 && opticalDevice == NO_DEVICE && !preservationHold
      ensures |pending| == MAX_DEVICES && forall i :: 0 <= i < |pending| ==> pending[i] == NO_PENDING
    {
      this.reliable, this.xeniaExports, this.xeniaImages := reliable, xeniaExports, xeniaImages;
      media, owner, process, storage := NO_SESSION, NoOwner, false, false;
      opticalDevice, driveKnown := NO_DEVICE, false;
      pending := seq(MAX_DEVICES, _ => NO_PENDING);
      preservationHold, terminalFailed, flushAttempted := false, false, false;
      acquired, log, begun, ledger, issued, driveOpens := 0, [], [], START, [], 0;
      new;
      assert PendingHeld(pending) == {};
    }

    ghost method Begin()
      requires Valid({})
      modifies this`begun
      ensures Valid({}) && begun == log
    {
      hide Custody, DriveOk, Legal, Replay, Ejections, DriveOpens;
      begun := log;
    }

    // Writes an event that the rules permit now.
    ghost method Record(event: Event)
      requires Tracked() && Permitted(ledger, event) && !event.EjectIssued? && !event.Opened? && !event.OpenFailed?
      modifies this`log, this`ledger
      ensures Tracked() && log == old(log) + [event] && ledger == Apply(old(ledger), event)
    {
      Extend(log, event);
      hide Legal, Replay, Ejections, DriveOpens, Permitted;
      log := log + [event];
      ledger := Apply(ledger, event);
    }

    // Writes an explicit eject.
    ghost method RecordEject(id: string)
      requires Tracked() && Permitted(ledger, EjectIssued(id))
      modifies this`log, this`ledger, this`issued
      ensures Tracked() && log == old(log) + [EjectIssued(id)] && ledger == Apply(old(ledger), EjectIssued(id))
      ensures issued == old(issued) + [Ejection(id, old(ledger).live)]
    {
      Extend(log, EjectIssued(id));
      hide Legal, Replay, Ejections, DriveOpens, Permitted;
      issued := issued + [Ejection(id, ledger.live)];
      log := log + [EjectIssued(id)];
      ledger := Apply(ledger, EjectIssued(id));
    }

    // Writes an attempt to open a drive that left nothing open.
    ghost method RecordOpenFailed(id: string)
      requires Tracked() && Permitted(ledger, OpenFailed(id))
      modifies this`log, this`ledger, this`driveOpens
      ensures Tracked() && log == old(log) + [OpenFailed(id)] && ledger == Apply(old(ledger), OpenFailed(id))
      ensures driveOpens == old(driveOpens) + 1
    {
      Extend(log, OpenFailed(id));
      hide Legal, Replay, Ejections, DriveOpens, Permitted;
      driveOpens := driveOpens + 1;
      log := log + [OpenFailed(id)];
      ledger := Apply(ledger, OpenFailed(id));
    }

    // A new handle of a drive or an image.
    method Acquire(origin: Origin) returns (h: Handle)
      requires Tracked() && Permitted(ledger, Opened(Handle(acquired, origin)))
      modifies this`acquired, this`log, this`ledger, this`driveOpens
      ensures Tracked() && h == Handle(old(acquired), origin) && h !in old(ledger.live)
      ensures driveOpens == old(driveOpens) + (if origin.Drive? then 1 else 0)
      ensures log == old(log) + [Opened(h)] && ledger == Apply(old(ledger), Opened(h))
    {
      h := Handle(acquired, origin);
      SerialsBelowNext(log, 0);
      Extend(log, Opened(h));
      hide Legal, Replay, Ejections, DriveOpens, Permitted;
      acquired := acquired + 1;
      driveOpens := driveOpens + (if origin.Drive? then 1 else 0);
      log := log + [Opened(h)];
      ledger := Apply(ledger, Opened(h));
    }
  }

  lemma GrownSinceBegun(rt: Runtime)
    requires rt.Tracked()
    ensures rt.begun <= rt.log
  {
  }

  // While nothing waits for cleanup nothing is latched; an eject that waits
  // for cleanup is for the medium that the session still exports.
  ghost predicate PhysicalOk(physical: Physical, media: Session, latches: set<Sighting>) {
    && (physical.cleanup.NoCleanup? ==> physical.monitor.event.NoEvent? && !physical.ejectDrive)
    && (physical.cleanup.EjectCleanup? && media.exported.Some? && media.exported.value.origin.Drive? ==>
          && Sighting(media.exported.value, physical.generation) in latches
          && media.exported.value.origin == Drive(physical.ejectDevice.id))
  }

  // Every listed device that is owed restoration is marked, and the list fits.
  ghost predicate InventoryOk(devices: seq<Entry>, pending: seq<Pending>) {
    && |devices| <= MAX_DEVICES
    && forall k :: 0 <= k < |devices| && PendingFor(pending, devices[k].device.id) ==> devices[k].cleanupPending
  }

  class Loop {
    var phase: Phase
    var imageSource: bool
    var backend: Backend
    var imagePath: string
    var devices: seq<Entry>
    var inventoryFailed: bool
    var optical: OpticalMonitors.State
    // What the monitor of the drive was told so far.
    ghost var history: seq<OpticalMonitors.Step>
    var physical: Physical
    var observationDelay: nat
    var readStatsDelay: nat
    var cleanupDelay: nat
    var unavailableChecks: nat
    var inventoryDelay: nat
    var pendingCleanupDelay: nat
    var forceLaunch: bool

    // The monitor is in the state its history leads to.
    ghost predicate Followed()
      reads this`optical, this`history
    {
      optical == OpticalMonitors.Run(OpticalMonitors.INITIAL, history)
    }

    constructor ()
      ensures physical == FRESH_PHYSICAL && devices == [] && history == [] && Followed()
      ensures phase.Discovering? && !imageSource && imagePath == "" && !inventoryFailed
      ensures observationDelay == 0 && !forceLaunch
      ensures inventoryDelay == 0 && pendingCleanupDelay == 0 && cleanupDelay == 0
    {
      phase, imageSource, backend, imagePath := Discovering, false, NoBackend, "";
      devices, inventoryFailed := [], false;
      optical, history, physical := OpticalMonitors.INITIAL, [], FRESH_PHYSICAL;
      observationDelay, readStatsDelay, cleanupDelay, unavailableChecks := 0, 0, 0, 0;
      inventoryDelay, pendingCleanupDelay, forceLaunch := 0, 0, false;
    }

    // Tells the monitor of anything but an observation.
    method Tell(step: OpticalMonitors.Step)
      requires Followed() && !step.Observed?
      modifies this`optical, this`history
      ensures Followed() && optical == OpticalMonitors.Next(old(optical), step) && history == old(history) + [step]
      ensures OpticalMonitors.Attempts(OpticalMonitors.INITIAL, history)
           == OpticalMonitors.Attempts(OpticalMonitors.INITIAL, old(history))
    {
      optical := OpticalMonitors.Next(optical, step);
      assert (history + [step])[..|history|] == history;
      history := history + [step];
    }

    // Shows the monitor the drive; true when the medium is to be opened.
    method Look(presence: OpticalMonitors.Presence) returns (attempt: bool)
      requires Followed()
      modifies this`optical, this`history
      ensures Followed() && optical == OpticalMonitors.AfterObservation(old(optical), presence)
      ensures history == old(history) + [OpticalMonitors.Observed(presence)]
      ensures attempt == OpticalMonitors.StartsAttempt(old(optical), presence)
      ensures OpticalMonitors.Attempts(OpticalMonitors.INITIAL, history)
           == OpticalMonitors.Attempts(OpticalMonitors.INITIAL, old(history)) + (if attempt then 1 else 0)
    {
      ghost var step := OpticalMonitors.Observed(presence);
      attempt := OpticalMonitors.StartsAttempt(optical, presence);
      optical := OpticalMonitors.AfterObservation(optical, presence);
      assert (history + [step])[..|history|] == history;
      history := history + [step];
    }
  }

  // The invariant of the worker between two operations.
  ghost predicate Sound(rt: Runtime, loop: Loop)
    reads rt, loop
  {
    && rt.Valid({}) && loop.Followed()
    && PhysicalOk(loop.physical, rt.media, rt.ledger.latches)
    && InventoryOk(loop.devices, rt.pending)
    && (rt.media.open ==> Shows(loop, rt.media))
  }

  // The worker shows the source and the emulator of the open session.
  ghost predicate Shows(loop: Loop, media: Session)
    reads loop`imageSource, loop`backend
  {
    loop.imageSource == media.image && loop.backend == media.backend
  }
}
