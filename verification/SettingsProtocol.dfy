// The settings and the setup requests that the user interface and the worker
// of src/app/runtime_setup.c, runtime_controls.c, runtime_state.c and
// runtime_drives.c share under one mutex.
//
// Every region between lock and unlock is one atomic step. `Shared` is the
// guarded record, the functions on it say what each region does, and
// `SharedRuntime` does the same in place. SettingsThreads.dfy interleaves the
// regions.

module SettingsProtocol {
  import opened Bytes
  import opened RuntimeCommands
  import opened Phases
  import Preferences

  type Settings = Preferences.Settings

  datatype Shared = Shared(
    settings: Settings, phase: Phase, canClose: bool, dirty: bool, saveRequested: bool,
    queue: seq<Request>, setupPending: bool, selectionRequested: bool, requestedDevice: string,
    stopping: bool)

  datatype Display = Display(scale: nat, aspect: nat, fit: nat, fullscreen: bool, width: nat, height: nat)

  predicate PlainPath(path: string, capacity: nat) {
    |path| < capacity && Preferences.PlainText(path)
  }

  predicate ValidDisplay(d: Display) {
    && 1 <= d.scale <= 10 && d.aspect <= Preferences.ASPECT_NATIVE && d.fit <= Preferences.FIT_STRETCH
    && 640 <= d.width <= 7680 && 480 <= d.height <= 4320
  }

  // ---------------------------------------------------------------------
  // The regions of the user interface

  function MarkDirty(s: Shared): Shared {
    s.(dirty := true, saveRequested := true)
  }

  function AfterAutoStart(s: Shared, enabled: bool): Shared {
    if s.stopping then s else MarkDirty(s.(settings := s.settings.(autoStart := enabled)))
  }

  predicate AllowsRequest(s: Shared, request: Request) {
    && !s.selectionRequested && (!s.setupPending || request.kind == ApplyDisplay) && !s.stopping
    && Accepts(s.queue, request)
  }

  function AfterRequest(s: Shared, request: Request): Shared {
    if AllowsRequest(s, request) then s.(queue := Enqueued(s.queue, request)) else s
  }

  const DISPLAY_REQUEST: Request := Request(ApplyDisplay, "", false, false)

  // A handheld host always renders at scale one.
  function WithDisplay(p: Settings, d: Display, handheld: bool): Settings {
    p.(scale := if handheld then 1 else d.scale, aspect := d.aspect, fit := d.fit,
       fullscreen := d.fullscreen, width := d.width, height := d.height)
  }

  function AfterDisplay(s: Shared, d: Display, handheld: bool): Shared {
    if s.stopping || !ValidDisplay(d) then s
    else MarkDirty(AfterRequest(s.(settings := WithDisplay(s.settings, d, handheld)), DISPLAY_REQUEST))
  }

  // `usable` says that the directory could be created.
  function AfterDirectory(s: Shared, path: string, usable: bool): Shared {
    if s.stopping || path == "" || !PlainPath(path, Preferences.PATH_CAPACITY) || !usable then s
    else MarkDirty(s.(settings := s.settings.(preservationDirectory := path)))
  }

  predicate Busy(s: Shared) {
    s.canClose || s.phase.Playing? || s.phase.Preserving? || s.phase.Preparing?
  }

  predicate ValidSetup(kind: Kind, path: string) {
    IsSetup(kind) && PlainPath(path, Preferences.PATH_CAPACITY) && (kind == SetXemu || path != "")
  }

  predicate AcceptsSetup(s: Shared, kind: Kind, path: string) {
    && ValidSetup(kind, path)
    && !(s.setupPending && kind == SetXemu)
    && !s.selectionRequested && !s.stopping && |s.queue| < CAPACITY && !Busy(s)
  }

  function WithSetup(s: Shared, kind: Kind, path: string): Shared {
    var chosen := if kind == SetXemu then MarkDirty(s.(settings := s.settings.(xemuOverride := path))) else s;
    chosen.(queue := Enqueued(s.queue, Request(kind, path, false, false)), setupPending := true)
  }

  function AfterSubmit(s: Shared, kind: Kind, path: string): Shared {
    if AcceptsSetup(s, kind, path) then WithSetup(s, kind, path) else s
  }

  predicate AcceptsDrive(s: Shared, id: string) {
    && PlainPath(id, Preferences.DEVICE_ID_CAPACITY)
    && !s.stopping && !Busy(s) && s.queue == []
  }

  function AfterSelectDrive(s: Shared, id: string): Shared {
    if AcceptsDrive(s, id) then s.(selectionRequested := true, requestedDevice := id) else s
  }

  // ---------------------------------------------------------------------
  // The regions of the worker

  function AfterPublish(s: Shared, phase: Phase, canClose: bool): Shared {
    s.(phase := phase, canClose := canClose && !s.stopping)
  }

  predicate FlushNeeded(s: Shared, force: bool) {
    s.dirty && (force || s.saveRequested)
  }

  function AfterFlushBegin(s: Shared, force: bool): Shared {
    if FlushNeeded(s, force) then s.(dirty := false, saveRequested := false) else s
  }

  function AfterTakeSetup(s: Shared): Shared {
    if s.stopping || !HasSetup(s.queue) || FirstSetup(s.queue) == |s.queue| then s
    else s.(queue := Without(s.queue, FirstSetup(s.queue)))
  }

  function AfterExecution(s: Shared): Shared {
    s.(setupPending := HasSetup(s.queue))
  }

  // What a buffer of the capacity keeps of a longer text.
  function Truncated(text: string, capacity: nat): (r: string)
    requires capacity > 0
    ensures |r| < capacity
  {
    if |text| < capacity then text else text[..capacity - 1]
  }

  function LabelFor(id: string, listed: Option<string>, caption: string): string {
    if listed.Some? then Truncated(listed.value, Preferences.LABEL_CAPACITY) else if id == "" then "" else caption
  }

  function WithDrive(p: Settings, id: string, listed: Option<string>): Settings {
    p.(deviceId := id, deviceLabel := LabelFor(id, listed, p.deviceLabel))
  }

  // `listed` is the label of the drive, if the inventory shows it.
  function AfterSelection(s: Shared, id: string, listed: Option<string>): Shared {
    s.(settings := WithDrive(s.settings, id, listed))
  }

  // ---------------------------------------------------------------------
  // The same regions on the guarded fields

  lemma SetupIsRequest(kind: Kind, path: string)
    requires ValidSetup(kind, path)
    ensures kind != NoRequest
  {
  }

  class SharedRuntime {
    var settings: Settings
    var phase: Phase
    var canClose: bool
    var preferencesDirty: bool
    var preferencesSaveRequested: bool
    const requests: RequestQueue
    var setupRequestPending: bool
    var deviceSelectionRequested: bool
    var requestedDeviceId: string
    var stopping: bool

    ghost predicate Valid()
      reads this, requests
    {
      requests.Valid()
    }

    ghost function Value(): Shared
      requires Valid()
      reads this, requests, requests.entries
    {
      Shared(settings, phase, canClose, preferencesDirty, preferencesSaveRequested, requests.Contents(),
             setupRequestPending, deviceSelectionRequested, requestedDeviceId, stopping)
    }

    constructor (loaded: Settings)
      ensures Valid() && fresh(requests) && fresh(requests.entries)
      ensures Value() == Shared(loaded, Discovering, false, false, false, [], false, false, "", false)
    {
      settings, phase, canClose := loaded, Discovering, false;
      preferencesDirty, preferencesSaveRequested := false, false;
      requests := new RequestQueue();
      setupRequestPending, deviceSelectionRequested, requestedDeviceId := false, false, "";
      stopping := false;
    }

    method MarkPreferencesDirty()
      requires Valid()
      modifies this`preferencesDirty, this`preferencesSaveRequested
      ensures Valid() && Value() == MarkDirty(old(Value()))
    {
      preferencesDirty := true;
      preferencesSaveRequested := true;
    }

    method SetAutoStart(enabled: bool)
      requires Valid()
      modifies this
      ensures Valid() && Value() == AfterAutoStart(old(Value()), enabled)
    {
      if stopping {
        return;
      }
      settings := settings.(autoStart := enabled);
      MarkPreferencesDirty();
    }

    method EnqueueRequest(request: Request) returns (accepted: bool)
      requires Valid()
      modifies requests, requests.entries
      ensures Valid() && Value() == AfterRequest(old(Value()), request)
      ensures accepted == AllowsRequest(old(Value()), request)
    {
      if !deviceSelectionRequested && (!setupRequestPending || request.kind == ApplyDisplay) && !stopping {
        accepted := requests.Enqueue(request);
      } else {
        accepted := false;
      }
    }

    method SetDisplay(d: Display, handheld: bool)
      requires Valid()
      modifies this, requests, requests.entries
      ensures Valid() && Value() == AfterDisplay(old(Value()), d, handheld)
      ensures settings
           == if stopping || !ValidDisplay(d) then old(settings)
              else Preferences.Settings(
                     old(settings).autoStart, if handheld then 1 else d.scale, d.aspect, d.fit, d.fullscreen,
                     d.width, d.height, old(settings).xemuOverride, old(settings).preservationDirectory,
                     old(settings).deviceId, old(settings).deviceLabel)
    {
      hide Accepts, Enqueued, Coalesces;
      if d.scale < 1 || d.scale > 10 || d.aspect > 3 || d.fit > 2
        || d.width < 640 || d.width > 7680 || d.height < 480 || d.height > 4320
      {
        return;
      }
      if stopping {
        return;
      }
      var scale := if handheld then 1 else d.scale;
      settings := settings.(scale := scale, aspect := d.aspect, fit := d.fit, fullscreen := d.fullscreen,
                            width := d.width, height := d.height);
      var _ := EnqueueRequest(Request(ApplyDisplay, "", false, false));
      MarkPreferencesDirty();
    }

    method SetPreservationDirectory(path: string, usable: bool) returns (accepted: bool)
      requires Valid()
      modifies this
      ensures Valid() && Value() == AfterDirectory(old(Value()), path, usable)
      ensures accepted ==> Value().settings.preservationDirectory == path && Value().dirty
      ensures !accepted ==> Value() == old(Value())
    {
      if path == "" || |path| >= 4096 || '\n' in path || '\r' in path || !usable {
        return false;
      }
      if stopping {
        return false;
      }
      settings := settings.(preservationDirectory := path);
      MarkPreferencesDirty();
      return true;
    }

    // Once every check has passed the queue has room, so the last refusal of
    // the original cannot happen after the settings were already changed.
    method Submit(kind: Kind, path: string) returns (accepted: bool)
      requires Valid()
      modifies this, requests, requests.entries
      ensures Valid() && Value() == AfterSubmit(old(Value()), kind, path)
      ensures accepted == AcceptsSetup(old(Value()), kind, path)
      ensures !accepted ==> Value() == old(Value())
    {
      hide ValidSetup, HasSetup, FirstSetup;
      if !ValidSetup(kind, path) {
        return false;
      }
      SetupIsRequest(kind, path);
      if (setupRequestPending && kind == SetXemu) || deviceSelectionRequested || stopping
        || requests.count >= CAPACITY
        || canClose || phase.Playing? || phase.Preserving? || phase.Preparing?
      {
        return false;
      }
      accepted := StoreSetup(kind, path);
      assert accepted;
    }

    method StoreSetup(kind: Kind, path: string) returns (accepted: bool)
      requires Valid() && kind != NoRequest && requests.count < CAPACITY
      modifies this, requests, requests.entries
      ensures Valid() && Value() == WithSetup(old(Value()), kind, path) && accepted
    {
      hide Enqueued, Coalesces, HasSetup, FirstSetup;
      if kind == SetXemu {
        settings := settings.(xemuOverride := path);
        MarkPreferencesDirty();
      }
      accepted := requests.Enqueue(Request(kind, path, false, false));
      setupRequestPending := true;
    }

    method SelectDrive(id: string) returns (accepted: bool)
      requires Valid()
      modifies this
      ensures Valid() && Value() == AfterSelectDrive(old(Value()), id)
      ensures accepted == AcceptsDrive(old(Value()), id)
    {
      if |id| >= 1024 || '\n' in id || '\r' in id {
        return false;
      }
      if stopping || canClose || phase.Playing? || phase.Preserving? || phase.Preparing?
        || requests.count != 0
      {
        return false;
      }
      requestedDeviceId := id;
      deviceSelectionRequested := true;
      return true;
    }

    // The worker's snapshot never brings its own settings along.
    method Publish(snapshotSettings: Settings, snapshotPhase: Phase, snapshotCanClose: bool)
      requires Valid()
      modifies this
      ensures Valid() && Value() == AfterPublish(old(Value()), snapshotPhase, snapshotCanClose)
    {
      hide Accepts, Enqueued, Coalesces;
      var kept := settings;
      settings, phase, canClose := snapshotSettings, snapshotPhase, snapshotCanClose;
      settings := kept;
      if stopping {
        canClose := false;
      }
    }

    method BeginFlush(force: bool) returns (copy: Option<Settings>)
      requires Valid()
      modifies this
      ensures Valid() && Value() == AfterFlushBegin(old(Value()), force)
      ensures copy == if FlushNeeded(old(Value()), force) then Some(old(settings)) else None
    {
      if !preferencesDirty || (!force && !preferencesSaveRequested) {
        return None;
      }
      copy := Some(settings);
      preferencesDirty := false;
      preferencesSaveRequested := false;
    }

    method NoteFailedFlush()
      requires Valid()
      modifies this`preferencesDirty
      ensures Valid() && Value() == old(Value()).(dirty := true)
    {
      preferencesDirty := true;
    }

    method TakeSetupRequest() returns (found: bool, request: Request)
      requires Valid()
      modifies requests, requests.entries
      ensures Valid() && Value() == AfterTakeSetup(old(Value()))
      ensures found <==> !stopping && HasSetup(old(Value()).queue)
      ensures found ==> var i := FirstSetup(old(Value()).queue);
                        i < |old(Value()).queue| && request == old(Value()).queue[i]
    {
      if stopping {
        return false, NOTHING;
      }
      ghost var before := requests.Contents();
      found, request := requests.TakeSetup();
      if found {
        FirstSetupExists(before);
      }
    }

    // The closing region of an executed setup request.
    method FinishExecution()
      requires Valid()
      modifies this`setupRequestPending
      ensures Valid() && Value() == AfterExecution(old(Value()))
    {
      setupRequestPending := false;
      var offset := 0;
      ghost var queue := requests.Contents();
      while offset < requests.count
        invariant 0 <= offset <= |queue| && Valid() && requests.Contents() == queue
        invariant !setupRequestPending
        invariant forall j :: 0 <= j < offset ==> !IsSetup(queue[j].kind)
      {
        if IsSetup(requests.entries[requests.Slot(offset)].kind) {
          setupRequestPending := true;
          assert IsSetup(queue[offset].kind);
          return;
        }
        offset := offset + 1;
      }
    }

    method TakeSelection() returns (id: Option<string>)
      requires Valid()
      modifies this`deviceSelectionRequested
      ensures Valid() && Value() == old(Value()).(selectionRequested := false)
      ensures id == if old(deviceSelectionRequested) then Some(requestedDeviceId) else None
    {
      if !deviceSelectionRequested {
        return None;
      }
      id := Some(requestedDeviceId);
      deviceSelectionRequested := false;
    }

    method ApplySelection(id: string, listed: Option<string>) returns (copy: Settings)
      requires Valid()
      modifies this`settings
      ensures Valid() && Value() == AfterSelection(old(Value()), id, listed)
      ensures copy == settings
    {
      settings := settings.(deviceId := id);
      if listed.Some? {
        settings := settings.(deviceLabel := Truncated(listed.value, Preferences.LABEL_CAPACITY));
      } else if id == "" {
        settings := settings.(deviceLabel := "");
      }
      copy := settings;
    }
  }

  lemma FirstSetupExists(queue: seq<Request>)
    ensures HasSetup(queue) <==> FirstSetup(queue) < |queue|
  {
  }
}
