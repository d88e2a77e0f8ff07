// The runs of the settings and setup protocol of SettingsProtocol.dfy: the
// user interface and the worker take their lock regions in any order, and the
// write of the settings file happens between two of the worker's regions.

module SettingsThreads {
  import opened Bytes
  import opened RuntimeCommands
  import opened SettingsProtocol
  import opened Phases
  import Preferences

  datatype Worker = Idle | Holding(request: Request) | Executing(request: Request, saved: bool) | Selecting(id: string)

  // A settings file on its way: a copy being written, or a failed write that
  // the worker has not yet noted.
  datatype Saving = NoSave | Writing(copy: Settings, flush: bool) | Failed

  // `closing` means that the worker has left its loop for the final cleanup.
  datatype World = World(
    shared: Shared, worker: Worker, saving: Saving, stored: Settings, closing: bool, flushed: bool)

  datatype Step =
    | AutoStart(enabled: bool)
    | ChangeDisplay(display: Display, handheld: bool)
    | Directory(path: string, usable: bool)
    | Submit(kind: Kind, setupPath: string)
    | Ask(request: Request)
    | Pick(id: string)
    | Stop
    | Publish(phase: Phase, canClose: bool)
    | TakeSetup
    | Take
    | BeginExecution
    | BeginFlush(force: bool)
    | EndWrite(ok: bool)
    | NoteFailure
    | EndExecution
    | TakeSelection
    | RefuseSelection
    | Select(listed: Option<string>)
    | LeaveLoop

  predicate ByInterface(step: Step) {
    step.AutoStart? || step.ChangeDisplay? || step.Directory? || step.Submit? || step.Ask? || step.Pick? || step.Stop?
  }

  function InterfaceStep(s: Shared, step: Step): Shared
    requires ByInterface(step)
  {
    match step
    case AutoStart(enabled) => AfterAutoStart(s, enabled)
    case ChangeDisplay(display, handheld) => AfterDisplay(s, display, handheld)
    case Directory(path, usable) => AfterDirectory(s, path, usable)
    case Submit(kind, path) => AfterSubmit(s, kind, path)
    case Ask(request) => if IsSetup(request.kind) then s else AfterRequest(s, request)
    case Pick(id) => AfterSelectDrive(s, id)
    case Stop => s.(stopping := true)
  }

  // May the worker flush here: in its loop, while it executes a chosen
  // emulator, and once after it has left the loop.
  predicate MayFlush(w: World, force: bool) {
    && w.saving.NoSave?
    && if w.worker.Executing? then force && w.worker.request.kind == SetXemu && !w.worker.saved && !w.closing
       else w.worker.Idle? && force == w.closing && !(w.closing && w.flushed)
  }

  function Flushing(w: World, force: bool): World {
    if FlushNeeded(w.shared, force)
    then w.(shared := AfterFlushBegin(w.shared, force), saving := Writing(w.shared.settings, true),
            flushed := w.closing)
    else w.(worker := Saved(w.worker), flushed := w.closing)
  }

  function Saved(worker: Worker): Worker {
    if worker.Executing? then worker.(saved := true) else worker
  }

  // Unsavable settings are refused before the file is touched, and a failed
  // write keeps the old file.
  function Written(w: World, ok: bool): World
    requires w.saving.Writing?
  {
    if ok && Preferences.Savable(w.saving.copy)
    then w.(stored := w.saving.copy, saving := NoSave, worker := if w.saving.flush then Saved(w.worker) else Idle)
    else if w.saving.flush then w.(saving := Failed)
    else w.(saving := NoSave, worker := Idle)
  }

  function TakeAny(w: World): World {
    if w.shared.queue == [] then w
    else
      var first := w.shared.queue[0];
      w.(shared := w.shared.(queue := w.shared.queue[1..]),
         worker := if IsSetup(first.kind) then Holding(first) else Idle)
  }

  function TakeFirst(w: World): World {
    var i := FirstSetup(w.shared.queue);
    if w.shared.stopping || i == |w.shared.queue| then w
    else w.(shared := w.shared.(queue := Without(w.shared.queue, i)), worker := Holding(w.shared.queue[i]))
  }

  function WorkerStep(w: World, step: Step): World
    requires !ByInterface(step)
  {
    var resting := w.worker.Idle? && w.saving.NoSave?;
    match step
    case Publish(phase, canClose) => w.(shared := AfterPublish(w.shared, phase, canClose))
    case TakeSetup => if resting && !w.closing then TakeFirst(w) else w
    case Take => if resting && !w.closing then TakeAny(w) else w
    case BeginExecution =>
      if !w.worker.Holding? then w
      else w.(worker := if w.shared.stopping then Idle else Executing(w.worker.request, false))
    case BeginFlush(force) => if MayFlush(w, force) then Flushing(w, force) else w
    case EndWrite(ok) => if w.saving.Writing? then Written(w, ok) else w
    case NoteFailure => if w.saving.Failed? then w.(saving := NoSave, shared := w.shared.(dirty := true)) else w
    case EndExecution =>
      if w.worker.Executing? && w.saving.NoSave?
      then w.(worker := Idle, shared := AfterExecution(w.shared)) else w
    case TakeSelection =>
      if resting && !w.closing && w.shared.selectionRequested
      then w.(worker := Selecting(w.shared.requestedDevice), shared := w.shared.(selectionRequested := false)) else w
    case RefuseSelection => if w.worker.Selecting? && w.saving.NoSave? then w.(worker := Idle) else w
    case Select(listed) =>
      if !w.worker.Selecting? || !w.saving.NoSave? then w
      else
        var after := AfterSelection(w.shared, w.worker.id, listed);
        w.(shared := after, saving := Writing(after.settings, false))
    case LeaveLoop => if resting && w.shared.stopping then w.(closing := true) else w
  }

  function Next(w: World, step: Step): World {
    if ByInterface(step) then w.(shared := InterfaceStep(w.shared, step)) else WorkerStep(w, step)
  }

  function Run(w: World, steps: seq<Step>): World {
    if steps == [] then w else Next(Run(w, steps[..|steps| - 1]), steps[|steps| - 1])
  }

  // A runtime that has just been created; what it loaded need not be what is
  // stored.
  predicate Fresh(w: World) {
    && w.worker.Idle? && w.saving.NoSave? && !w.closing && !w.flushed
    && !w.shared.dirty && !w.shared.saveRequested && w.shared.queue == [] && !w.shared.setupPending
    && !w.shared.selectionRequested && !w.shared.stopping
  }

  // ---------------------------------------------------------------------
  // No edit is lost

  predicate SameButDrive(a: Settings, b: Settings) {
    a == b.(deviceId := a.deviceId, deviceLabel := a.deviceLabel)
  }

  predicate SameDrive(a: Settings, b: Settings) {
    a.deviceId == b.deviceId && a.deviceLabel == b.deviceLabel
  }

  // The step changes the settings in a way that marks them dirty.
  predicate Edits(s: Shared, step: Step) {
    match step
    case AutoStart(_) => !s.stopping
    case ChangeDisplay(display, _) => !s.stopping && ValidDisplay(display)
    case Directory(path, usable) =>
      !s.stopping && path != "" && PlainPath(path, Preferences.PATH_CAPACITY) && usable
    case Submit(kind, path) => kind == SetXemu && AcceptsSetup(s, kind, path)
    case _ => false
  }

  predicate WriteSucceeds(v: World, step: Step) {
    step.EndWrite? && v.saving.Writing? && step.ok && Preferences.Savable(v.saving.copy)
  }

  // The stored file and the settings have met: they agreed but for the drive
  // when the settings were loaded, or there was an edit or a successful write.
  predicate Settled(w: World, steps: seq<Step>) {
    if steps == [] then SameButDrive(w.stored, w.shared.settings)
    else
      var before, last := steps[..|steps| - 1], steps[|steps| - 1];
      Settled(w, before) || Edits(Run(w, before).shared, last) || WriteSucceeds(Run(w, before), last)
  }

  predicate Kept(w: World, known: bool) {
    && (w.saving.Writing? ==> SameDrive(w.saving.copy, w.shared.settings))
    && (w.shared.saveRequested ==> w.shared.dirty)
    && (w.saving.Writing? && !w.shared.dirty ==> SameButDrive(w.saving.copy, w.shared.settings))
    && (known && !w.shared.dirty && !(w.saving.Writing? && w.saving.flush) && !w.saving.Failed?
        ==> SameButDrive(w.stored, w.shared.settings))
  }

  lemma InterfaceKeeps(w: World, known: bool, step: Step)
    requires Kept(w, known) && ByInterface(step)
    ensures Kept(Next(w, step), known || Edits(w.shared, step))
    ensures SameDrive(Next(w, step).shared.settings, w.shared.settings)
  {
    hide Accepts, Enqueued, PlainPath, IsSetup, WorkerStep;
  }

  lemma WorkerKeeps(w: World, known: bool, step: Step)
    requires Kept(w, known) && !ByInterface(step)
    ensures Kept(Next(w, step), known || WriteSucceeds(w, step))
  {
    hide InterfaceStep, Preferences.Savable, FirstSetup, Without, IsSetup, HasSetup;
  }

  lemma {:induction false} RunKeeps(w: World, steps: seq<Step>)
    requires Fresh(w)
    ensures Kept(Run(w, steps), Settled(w, steps))
  {
    if steps != [] {
      var before, last := steps[..|steps| - 1], steps[|steps| - 1];
      RunKeeps(w, before);
      var known := Settled(w, before);
      hide Kept, Next, SameButDrive, Fresh;
      if ByInterface(last) {
        InterfaceKeeps(Run(w, before), known, last);
        assert !WriteSucceeds(Run(w, before), last);
      } else {
        WorkerKeeps(Run(w, before), known, last);
        assert !Edits(Run(w, before).shared, last);
      }
    }
  }

  // Until then both are what they were.
  lemma {:induction false} UnsettledIsUntouched(w: World, steps: seq<Step>)
    requires !Settled(w, steps)
    ensures Run(w, steps).stored == w.stored && SameButDrive(Run(w, steps).shared.settings, w.shared.settings)
  {
    if steps != [] {
      var before, last := steps[..|steps| - 1], steps[|steps| - 1];
      UnsettledIsUntouched(w, before);
      hide Run, Edits, Settled;
      UntouchingStep(Run(w, before), last);
    }
  }

  lemma {:induction false} UntouchingStep(v: World, step: Step)
    requires !Edits(v.shared, step) && !WriteSucceeds(v, step)
    ensures Next(v, step).stored == v.stored && SameButDrive(Next(v, step).shared.settings, v.shared.settings)
  {
    hide InterfaceStep, WorkerStep, SameButDrive;
    if ByInterface(step) {
      UntouchingInterface(v.shared, step);
    } else {
      UntouchingWorker(v, step);
    }
  }

  lemma {:induction false} UntouchingInterface(s: Shared, step: Step)
    requires ByInterface(step) && !Edits(s, step)
    ensures SameButDrive(InterfaceStep(s, step).settings, s.settings)
  {
    hide Enqueued, PlainPath, ValidDisplay, AllowsRequest, AcceptsDrive, AcceptsSetup, IsSetup;
    match step {
      case AutoStart(_) =>
      case ChangeDisplay(_, _) =>
      case Directory(_, _) =>
      case Submit(_, _) =>
      case Ask(_) =>
      case Pick(_) =>
      case Stop =>
    }
  }

  lemma {:induction false} UntouchingWorker(v: World, step: Step)
    requires !ByInterface(step) && !WriteSucceeds(v, step)
    ensures WorkerStep(v, step).stored == v.stored
    ensures SameButDrive(WorkerStep(v, step).shared.settings, v.shared.settings)
  {
    hide HasSetup, FirstSetup, Without, Preferences.Savable, MayFlush, FlushNeeded, IsSetup, LabelFor;
    match step {
      case TakeSetup =>
      case Take =>
      case BeginFlush(_) =>
      case EndWrite(_) =>
      case Select(_) =>
      case _ =>
    }
  }

  // In every interleaving, whenever the settings are not dirty and no write is
  // on its way, the stored file holds them in every field but the chosen drive
  // (below), edits made during a write and failed writes included. The one
  // exception is settings that differed from the file when they were loaded
  // and were neither edited nor written since.
  lemma NoLostEdits(w: World, steps: seq<Step>)
    requires Fresh(w)
    ensures var v := Run(w, steps);
            !v.shared.dirty && v.saving.NoSave? ==>
              (SameButDrive(v.stored, v.shared.settings) <==> Settled(w, steps))
  {
    hide Fresh, Settled, Run;
    RunKeeps(w, steps);
    if !Settled(w, steps) {
      UnsettledIsUntouched(w, steps);
      UnsettledDiffers(w, steps);
    }
  }

  lemma {:induction false} UnsettledDiffers(w: World, steps: seq<Step>)
    ensures SameButDrive(w.stored, w.shared.settings) ==> Settled(w, steps)
  {
    if steps != [] {
      UnsettledDiffers(w, steps[..|steps| - 1]);
    }
  }

  // ---------------------------------------------------------------------
  // The chosen drive

  datatype DriveChoice = DriveChoice(id: string, caption: string)

  function DriveOf(p: Settings): DriveChoice {
    DriveChoice(p.deviceId, p.deviceLabel)
  }

  predicate SelectsDrive(v: World, step: Step) {
    step.Select? && v.worker.Selecting? && v.saving.NoSave?
  }

  // The drive chosen last, read off the selections of the run.
  function ChosenDrive(w: World, steps: seq<Step>): DriveChoice {
    if steps == [] then DriveOf(w.shared.settings)
    else
      var before, last := steps[..|steps| - 1], steps[|steps| - 1];
      var v := Run(w, before);
      if SelectsDrive(v, last)
      then DriveChoice(v.worker.id, LabelFor(v.worker.id, last.listed, ChosenDrive(w, before).caption))
      else ChosenDrive(w, before)
  }

  // The drive that was the chosen one at the last write that succeeded.
  function WrittenDrive(w: World, steps: seq<Step>): DriveChoice {
    if steps == [] then DriveOf(w.stored)
    else
      var before, last := steps[..|steps| - 1], steps[|steps| - 1];
      if WriteSucceeds(Run(w, before), last) then ChosenDrive(w, before) else WrittenDrive(w, before)
  }

  ghost predicate DriveKept(w: World, chosen: DriveChoice, written: DriveChoice) {
    && (w.saving.Writing? ==> SameDrive(w.saving.copy, w.shared.settings))
    && DriveOf(w.shared.settings) == chosen && DriveOf(w.stored) == written
  }

  lemma {:induction false} RunKeepsDrive(w: World, steps: seq<Step>)
    requires Fresh(w)
    ensures DriveKept(Run(w, steps), ChosenDrive(w, steps), WrittenDrive(w, steps))
  {
    if steps != [] {
      var before, last := steps[..|steps| - 1], steps[|steps| - 1];
      RunKeepsDrive(w, before);
      var v := Run(w, before);
      RunKeeps(w, before);
      hide Run, Fresh, SameButDrive, Settled, LabelFor;
      if ByInterface(last) {
        InterfaceKeeps(v, false, last);
        hide InterfaceStep;
        assert !last.Select? && !last.EndWrite?;
      } else {
        WorkerKeepsDrive(v, ChosenDrive(w, before), WrittenDrive(w, before), last);
      }
    }
  }

  lemma WorkerKeepsDrive(v: World, chosen: DriveChoice, written: DriveChoice, last: Step)
    requires DriveKept(v, chosen, written) && !ByInterface(last)
    ensures DriveKept(
              Next(v, last),
              if SelectsDrive(v, last) then DriveChoice(v.worker.id, LabelFor(v.worker.id, last.listed, chosen.caption))
              else chosen,
              if WriteSucceeds(v, last) then chosen else written)
  {
    hide InterfaceStep, LabelFor, Preferences.Savable, FirstSetup, Without, IsSetup;
  }

  // With the drive included: clean settings with no write on its way are the
  // stored ones exactly when they are settled and the drive chosen last is the
  // one that the last successful write had.
  lemma CleanMeansStored(w: World, steps: seq<Step>)
    requires Fresh(w)
    ensures var v := Run(w, steps);
            !v.shared.dirty && v.saving.NoSave? ==>
              (v.stored == v.shared.settings
               <==> Settled(w, steps) && ChosenDrive(w, steps) == WrittenDrive(w, steps))
  {
    hide Fresh, ChosenDrive, WrittenDrive, Run, Settled;
    NoLostEdits(w, steps);
    RunKeepsDrive(w, steps);
  }

  // One selection from a clean state: it is stored exactly when its own write
  // succeeds, or when it chose what was chosen before.
  lemma SelectionIsStoredWhenWritten(w: World, listed: Option<string>, ok: bool)
    requires w.worker.Selecting? && w.saving.NoSave? && !w.shared.dirty && w.stored == w.shared.settings
    ensures var chosen := WithDrive(w.shared.settings, w.worker.id, listed);
            var v := Run(w, [Select(listed), EndWrite(ok)]);
            && v.shared.settings == chosen && !v.shared.dirty && v.saving.NoSave? && v.worker.Idle?
            && (v.stored == v.shared.settings <==> (ok && Preferences.Savable(chosen)) || chosen == w.shared.settings)
  {
    hide Preferences.Savable, LabelFor;
    assert [Select(listed), EndWrite(ok)][..1] == [Select(listed)] && [Select(listed)][..0] == [];
    assert Run(w, []) == w;
    assert Run(w, [Select(listed)]) == Next(w, Select(listed));
  }

  // Neither an edit nor a drive selection.
  predicate LeavesSettings(step: Step) {
    && !step.AutoStart? && !step.ChangeDisplay? && !step.Directory?
    && !(step.Submit? && step.kind == SetXemu) && !step.Select?
  }

  predicate Clean(w: World) {
    w.saving.NoSave? && !w.shared.dirty && !w.shared.saveRequested
  }

  // Clean settings are never written again before another edit or selection,
  // whatever is queued and executed, not even by the final forced flush.
  lemma {:induction false} CleanIsNotWritten(w: World, steps: seq<Step>)
    requires Clean(w)
    requires forall i :: 0 <= i < |steps| ==> LeavesSettings(steps[i])
    ensures var v := Run(w, steps);
            Clean(v) && v.stored == w.stored && v.shared.settings == w.shared.settings
  {
    if steps != [] {
      var before, last := steps[..|steps| - 1], steps[|steps| - 1];
      CleanIsNotWritten(w, before);
      assert last in steps;
      CleanStep(Run(w, before), last);
    }
  }

  lemma CleanStep(w: World, step: Step)
    requires Clean(w) && LeavesSettings(step)
    ensures Clean(Next(w, step)) && Next(w, step).stored == w.stored
    ensures Next(w, step).shared.settings == w.shared.settings
  {
    hide Accepts, Enqueued, PlainPath, HasSetup, FirstSetup, Without, Preferences.Savable;
  }

  // A drive is picked and selected, and the selection is written or not.
  function PickAndSelect(listed: Option<string>, ok: bool): seq<Step> {
    [Pick("sr0"), TakeSelection, Select(listed), EndWrite(ok)]
  }

  lemma SelectionRun(w: World, listed: Option<string>, ok: bool)
    requires Fresh(w) && !Busy(w.shared)
    ensures var v := Run(w, PickAndSelect(listed, ok));
            && Clean(v) && v.worker.Idle? && v.shared.settings == WithDrive(w.shared.settings, "sr0", listed)
            && v.stored == if ok && Preferences.Savable(v.shared.settings) then v.shared.settings else w.stored
  {
    FourSteps(w, Pick("sr0"), TakeSelection, Select(listed), EndWrite(ok));
    hide Run, HasSetup, FirstSetup, Without, Accepts, Enqueued, Preferences.Savable, LabelFor;
    hide AfterDisplay, AfterSubmit, AfterAutoStart, AfterDirectory, AfterRequest, TakeFirst, TakeAny;
    hide Flushing, MayFlush;
    var picked := Next(w, Pick("sr0"));
    assert picked.shared.selectionRequested && picked.shared.requestedDevice == "sr0";
    var taken := Next(picked, TakeSelection);
    assert taken.worker == Selecting("sr0") && taken.shared.settings == w.shared.settings;
    assert Next(taken, Select(listed)).saving.Writing?;
  }

  lemma FourSteps(w: World, a: Step, b: Step, c: Step, d: Step)
    ensures Run(w, [a, b, c, d]) == Next(Next(Next(Next(w, a), b), c), d)
  {
    hide Next;
    assert [a, b, c, d][..3] == [a, b, c] && [a, b, c][..2] == [a, b] && [a, b][..1] == [a] && [a][..0] == [];
    assert Run(w, [a]) == Next(w, a) by { assert Run(w, []) == w; }
    assert Run(w, [a, b, c]) == Next(Next(Next(w, a), b), c);
  }

  // So a drive choice whose own write failed stays unsaved: the run below ends
  // clean with another drive stored than chosen, and no continuation without
  // an edit or a selection stores it.
  lemma ChosenDriveCanStayUnsaved(w: World)
    requires Fresh(w) && w.stored == w.shared.settings && w.shared.settings.deviceId == "" && !Busy(w.shared)
    ensures exists steps :: var v := Run(w, steps);
              && Clean(v) && v.worker.Idle?
              && v.shared.settings.deviceId == "sr0" && v.stored.deviceId != v.shared.settings.deviceId
  {
    hide Run, Fresh, Busy;
    SelectionRun(w, None, false);
  }

  // ---------------------------------------------------------------------
  // The setup protocol

  function Held(worker: Worker): Option<Request> {
    match worker
    case Holding(request) => Some(request)
    case Executing(request, _) => Some(request)
    case _ => None
  }

  // A setup request waits in the queue or is in the worker's hands.
  predicate Outstanding(w: World) {
    HasSetup(w.shared.queue) || Held(w.worker).Some?
  }

  ghost predicate PendingKept(w: World) {
    && (Held(w.worker).Some? ==> IsSetup(Held(w.worker).value.kind))
    && (Outstanding(w) ==> w.shared.setupPending)
    && (!w.shared.stopping && w.shared.setupPending ==> Outstanding(w))
    && (w.saving.Writing? && !w.saving.flush ==> w.worker.Selecting?)
  }

  lemma EnqueuedSetup(queue: seq<Request>, request: Request)
    ensures HasSetup(queue) && !IsSetup(request.kind) ==> HasSetup(Enqueued(queue, request))
    ensures HasSetup(Enqueued(queue, request)) ==> HasSetup(queue) || IsSetup(request.kind)
    ensures Accepts(queue, request) && IsSetup(request.kind) ==> HasSetup(Enqueued(queue, request))
  {
    var after := Enqueued(queue, request);
    if HasSetup(queue) && !IsSetup(request.kind) {
      var i :| 0 <= i < |queue| && IsSetup(queue[i].kind);
      assert IsSetup(after[i].kind);
    }
    if HasSetup(after) {
      var i :| 0 <= i < |after| && IsSetup(after[i].kind);
      if i < |queue| && !IsSetup(request.kind) { assert IsSetup(queue[i].kind); }
    }
    if Accepts(queue, request) && IsSetup(request.kind) {
      assert IsSetup(after[|after| - 1].kind);
    }
  }

  lemma InterfaceKeepsPending(w: World, step: Step)
    requires PendingKept(w) && ByInterface(step)
    ensures PendingKept(Next(w, step))
  {
    hide HasSetup, Enqueued, Accepts, PlainPath, WorkerStep;
    match step {
      case ChangeDisplay(_, _) => EnqueuedSetup(w.shared.queue, DISPLAY_REQUEST);
      case Submit(kind, path) =>
        EnqueuedSetup(w.shared.queue, Request(kind, path, false, false));
        AcceptedSetupFits(w.shared, kind, path);
      case Ask(request) => EnqueuedSetup(w.shared.queue, request);
      case _ =>
    }
  }

  // The queue has room for every setup request that passed the checks.
  lemma AcceptedSetupFits(s: Shared, kind: Kind, path: string)
    ensures AcceptsSetup(s, kind, path) ==> Accepts(s.queue, Request(kind, path, false, false))
    ensures !AcceptsSetup(s, kind, path) ==> AfterSubmit(s, kind, path) == s
  {
  }

  lemma {:induction false} WorkerKeepsPending(w: World, step: Step)
    requires PendingKept(w) && !ByInterface(step)
    ensures PendingKept(Next(w, step))
  {
    if step.Take? || step.TakeSetup? {
      TakingKeepsPending(w, step);
    } else {
      hide HasSetup, FirstSetup, Without, TakeAny, TakeFirst, Preferences.Savable, LabelFor, InterfaceStep, Enqueued;
    }
  }

  lemma {:induction false} TakingKeepsPending(w: World, step: Step)
    requires PendingKept(w) && (step.Take? || step.TakeSetup?)
    ensures PendingKept(Next(w, step))
  {
    hide InterfaceStep, Enqueued, Preferences.Savable, Flushing, Written;
    var queue := w.shared.queue;
    if queue != [] {
      assert queue == [queue[0]] + queue[1..];
      if i :| 0 <= i < |queue| && IsSetup(queue[i].kind) {
        assert i > 0 ==> IsSetup(queue[1..][i - 1].kind);
      }
    }
  }

  lemma WithoutFirst(queue: seq<Request>)
    requires queue != []
    ensures Without(queue, 0) == queue[1..]
  {
  }

  // Until the runtime is stopping, the flag is set exactly while a setup
  // request is queued or held by the worker; and it is never clear while one is.
  lemma {:induction false} PendingIsExact(w: World, steps: seq<Step>)
    requires Fresh(w)
    ensures var v := Run(w, steps);
            && (Outstanding(v) ==> v.shared.setupPending)
            && (!v.shared.stopping ==> (v.shared.setupPending <==> Outstanding(v)))
  {
    RunKeepsPending(w, steps);
  }

  lemma {:induction false} RunKeepsPending(w: World, steps: seq<Step>)
    requires Fresh(w)
    ensures PendingKept(Run(w, steps))
  {
    if steps != [] {
      var before, last := steps[..|steps| - 1], steps[|steps| - 1];
      RunKeepsPending(w, before);
      hide PendingKept, Next, Fresh;
      if ByInterface(last) {
        InterfaceKeepsPending(Run(w, before), last);
      } else {
        WorkerKeepsPending(Run(w, before), last);
      }
    }
  }

  predicate Chooses(held: Option<Request>) {
    held.Some? && held.value.kind == SetXemu
  }

  // At most one chosen emulator is outstanding, `path` is its path, and it
  // has been an edit.
  ghost predicate OneChoice(queue: seq<Request>, held: Option<Request>, path: string, edited: bool) {
    && (Chooses(held) ==> edited && held.value.path == path)
    && forall i :: 0 <= i < |queue| && queue[i].kind == SetXemu ==>
         && edited && queue[i].path == path && !Chooses(held)
         && forall j :: 0 <= j < |queue| && queue[j].kind == SetXemu ==> i == j
  }

  lemma EnqueuedOther(queue: seq<Request>, held: Option<Request>, path: string, edited: bool, request: Request)
    requires OneChoice(queue, held, path, edited) && request.kind != SetXemu
    ensures OneChoice(Enqueued(queue, request), held, path, edited)
  {
  }

  lemma TakenChoice(queue: seq<Request>, path: string, edited: bool, i: nat)
    requires i < |queue| && OneChoice(queue, None, path, edited)
    ensures OneChoice(Without(queue, i), if IsSetup(queue[i].kind) then Some(queue[i]) else None, path, edited)
  {
  }

  lemma Dropped(queue: seq<Request>, held: Option<Request>, path: string, edited: bool)
    requires OneChoice(queue, held, path, edited)
    ensures OneChoice(queue, None, path, edited) && OneChoice(queue, held, path, true)
    ensures Chooses(held) ==> edited && held.value.path == path
  {
  }

  ghost predicate ChoiceKept(w: World, edited: bool) {
    && OneChoice(w.shared.queue, Held(w.worker), w.shared.settings.xemuOverride, edited)
    && (w.worker.Executing? && w.worker.saved && w.worker.request.kind == SetXemu
        ==> w.stored.xemuOverride == w.worker.request.path)
    && (w.saving.Writing? && Chooses(Held(w.worker)) ==> w.saving.copy.xemuOverride == w.shared.settings.xemuOverride)
    && (w.worker.Holding? ==> w.saving.NoSave?)
    && (w.worker.Executing? && w.worker.saved ==> w.saving.NoSave?)
  }

  // Whatever keeps the requests and the override keeps the choice.
  lemma SameChoice(w: World, v: World, edited: bool, after: bool)
    requires ChoiceKept(w, edited) && (edited ==> after)
    requires v.worker == w.worker && v.saving == w.saving && v.stored == w.stored
    requires v.shared.queue == w.shared.queue
    requires v.shared.settings.xemuOverride == w.shared.settings.xemuOverride
    ensures ChoiceKept(v, after)
  {
  }

  lemma InterfaceKeepsChoice(w: World, edited: bool, step: Step)
    requires ChoiceKept(w, edited) && PendingKept(w) && ByInterface(step)
    ensures ChoiceKept(Next(w, step), edited || Edits(w.shared, step))
  {
    hide WorkerStep, ChoiceKept, PendingKept, PlainPath, AcceptsSetup, AfterSubmit, AfterDisplay, AcceptsDrive;
    hide AfterRequest;
    match step {
      case ChangeDisplay(display, handheld) => DisplayedChoice(w, edited, display, handheld);
      case Submit(kind, chosen) => SubmittedChoice(w, edited, kind, chosen);
      case Ask(request) => AskedChoice(w, edited, request);
      case _ => SameChoice(w, Next(w, step), edited, edited || Edits(w.shared, step));
    }
  }

  lemma AskedChoice(w: World, edited: bool, request: Request)
    requires ChoiceKept(w, edited)
    ensures !IsSetup(request.kind) ==> ChoiceKept(w.(shared := AfterRequest(w.shared, request)), edited)
    ensures ChoiceKept(w.(shared := w.shared), edited)
  {
  }

  lemma DisplayedChoice(w: World, edited: bool, display: Display, handheld: bool)
    requires ChoiceKept(w, edited)
    ensures ChoiceKept(w.(shared := AfterDisplay(w.shared, display, handheld)),
                       edited || (!w.shared.stopping && ValidDisplay(display)))
  {
    hide Enqueued, Accepts, OneChoice, ValidDisplay;
    var path := w.shared.settings.xemuOverride;
    Dropped(w.shared.queue, Held(w.worker), path, edited);
    EnqueuedOther(w.shared.queue, Held(w.worker), path, true, DISPLAY_REQUEST);
  }

  lemma SubmittedChoice(w: World, edited: bool, kind: Kind, chosen: string)
    requires ChoiceKept(w, edited) && PendingKept(w)
    ensures ChoiceKept(w.(shared := AfterSubmit(w.shared, kind, chosen)),
                       edited || (kind == SetXemu && AcceptsSetup(w.shared, kind, chosen)))
  {
  }

  lemma WorkerKeepsChoice(w: World, edited: bool, step: Step)
    requires ChoiceKept(w, edited) && PendingKept(w) && Kept(w, edited) && !ByInterface(step)
    ensures ChoiceKept(Next(w, step), edited)
  {
    hide InterfaceStep, Kept, ChoiceKept, PendingKept, MayFlush, Flushing, Written, TakeFirst, TakeAny, HasSetup;
    match step {
      case TakeSetup => TakenChoices(w, edited);
      case Take => TakenChoices(w, edited);
      case BeginFlush(force) =>
        if MayFlush(w, force) {
          FlushKeepsChoice(w, edited, force);
        }
      case EndWrite(ok) =>
        if w.saving.Writing? {
          WriteKeepsChoice(w, edited, ok);
        }
      case Publish(_, _) => SameChoice(w, Next(w, step), edited, edited);
      case NoteFailure => QuietKeepsChoice(w, edited, step);
      case LeaveLoop => SameChoice(w, Next(w, step), edited, edited);
      case _ => ReleasedChoice(w, edited, step);
    }
  }

  lemma QuietKeepsChoice(w: World, edited: bool, step: Step)
    requires ChoiceKept(w, edited) && step.NoteFailure?
    ensures ChoiceKept(Next(w, step), edited)
  {
  }

  lemma ReleasedChoice(w: World, edited: bool, step: Step)
    requires ChoiceKept(w, edited) && PendingKept(w)
    requires step.BeginExecution? || step.EndExecution? || step.TakeSelection? || step.RefuseSelection? || step.Select?
    ensures ChoiceKept(Next(w, step), edited)
  {
  }

  lemma TakenChoices(w: World, edited: bool)
    requires ChoiceKept(w, edited)
    ensures w.worker.Idle? && w.saving.NoSave? ==> ChoiceKept(TakeFirst(w), edited) && ChoiceKept(TakeAny(w), edited)
  {
    hide IsSetup, OneChoice, FirstSetup, Without;
    var queue, path := w.shared.queue, w.shared.settings.xemuOverride;
    if w.worker.Idle? && w.saving.NoSave? {
      if FirstSetup(queue) < |queue| {
        TakenChoice(queue, path, edited, FirstSetup(queue));
      }
      if queue != [] {
        TakenChoice(queue, path, edited, 0);
        WithoutFirst(queue);
      }
    }
  }

  lemma FlushKeepsChoice(w: World, edited: bool, force: bool)
    requires ChoiceKept(w, edited) && Kept(w, edited) && MayFlush(w, force)
    ensures ChoiceKept(Flushing(w, force), edited)
  {
  }

  lemma WriteKeepsChoice(w: World, edited: bool, ok: bool)
    requires ChoiceKept(w, edited) && PendingKept(w) && w.saving.Writing?
    ensures ChoiceKept(Written(w, ok), edited)
  {
  }

  lemma {:induction false} RunKeepsChoice(w: World, steps: seq<Step>)
    requires Fresh(w)
    ensures ChoiceKept(Run(w, steps), Settled(w, steps))
  {
    if steps != [] {
      var before, last := steps[..|steps| - 1], steps[|steps| - 1];
      RunKeepsChoice(w, before);
      RunKeepsPending(w, before);
      RunKeeps(w, before);
      var edited := Settled(w, before);
      hide PendingKept, ChoiceKept, Kept, Next, Fresh, SameButDrive;
      if ByInterface(last) {
        InterfaceKeepsChoice(Run(w, before), edited, last);
        assert !WriteSucceeds(Run(w, before), last);
      } else {
        WorkerKeepsChoice(Run(w, before), edited, last);
        SameChoice(Run(w, steps), Run(w, steps), edited, Settled(w, steps));
      }
    }
  }

  // In every interleaving at most one chosen emulator is outstanding, and
  // while it is, its path is the override in the settings.
  lemma OneOutstandingChoice(w: World, steps: seq<Step>, i: nat)
    requires Fresh(w)
    ensures var v := Run(w, steps);
            && (Chooses(Held(v.worker)) ==> Held(v.worker).value.path == v.shared.settings.xemuOverride)
            && (i < |v.shared.queue| && v.shared.queue[i].kind == SetXemu ==>
                  && v.shared.queue[i].path == v.shared.settings.xemuOverride
                  && !Chooses(Held(v.worker))
                  && forall j :: 0 <= j < |v.shared.queue| && v.shared.queue[j].kind == SetXemu ==> j == i)
  {
    RunKeepsChoice(w, steps);
  }

  // The emulator is only prepared once its path is in the stored file, so a
  // forced close during the preparation keeps the choice.
  lemma PreparedChoiceIsStored(w: World, steps: seq<Step>)
    requires Fresh(w)
    ensures var v := Run(w, steps);
            v.worker.Executing? && v.worker.saved && v.worker.request.kind == SetXemu
            ==> v.stored.xemuOverride == v.worker.request.path == v.shared.settings.xemuOverride
  {
    RunKeepsChoice(w, steps);
  }

  // ---------------------------------------------------------------------
  // Closing, retrying, and what can be saved

  // After the worker has left its loop the settings are final: every edit is
  // refused, whoever asks.
  lemma {:induction false} SettingsAreFinal(w: World, steps: seq<Step>)
    requires Closed(w)
    ensures Closed(Run(w, steps)) && Run(w, steps).shared.settings == w.shared.settings
  {
    if steps != [] {
      SettingsAreFinal(w, steps[..|steps| - 1]);
      ClosedStep(Run(w, steps[..|steps| - 1]), steps[|steps| - 1]);
    }
  }

  predicate Closed(w: World) {
    w.closing && w.shared.stopping && w.worker.Idle? && !(w.saving.Writing? && !w.saving.flush)
  }

  lemma ClosedStep(w: World, step: Step)
    requires Closed(w)
    ensures Closed(Next(w, step)) && Next(w, step).shared.settings == w.shared.settings
  {
  }

  predicate NoneChosen(queue: seq<Request>) {
    forall i :: 0 <= i < |queue| ==> queue[i].kind != SetXemu
  }

  lemma ChoicesEnqueued(queue: seq<Request>, request: Request)
    ensures NoneChosen(queue) && request.kind != SetXemu ==> NoneChosen(Enqueued(queue, request))
  {
  }

  lemma ChoicesLeft(queue: seq<Request>, i: nat)
    requires i < |queue|
    ensures NoneChosen(queue) ==>
              queue[i].kind != SetXemu && NoneChosen(Without(queue, i)) && NoneChosen(queue[1..])
  {
  }

  // No chosen emulator waits or is being executed.
  predicate NoChoice(w: World) {
    !Chooses(Held(w.worker)) && NoneChosen(w.shared.queue)
  }

  predicate Unsaved(w: World) {
    && w.saving.NoSave? && !w.shared.saveRequested && !w.closing && NoChoice(w)
  }

  // A write that failed is retried only after another edit, with a drive
  // selection, with a chosen emulator, or when the runtime closes: until then
  // requests of every other kind are taken and executed, drives are picked and
  // snapshots published, and dirty settings whose save is not requested are
  // not written.
  lemma {:induction false} NoIdleRetry(w: World, steps: seq<Step>)
    requires Unsaved(w)
    requires forall i :: 0 <= i < |steps| ==> LeavesSettings(steps[i]) && !steps[i].LeaveLoop?
    ensures var v := Run(w, steps);
            Unsaved(v) && v.stored == w.stored && v.shared.dirty == w.shared.dirty
            && v.shared.settings == w.shared.settings
  {
    if steps != [] {
      var before, last := steps[..|steps| - 1], steps[|steps| - 1];
      NoIdleRetry(w, before);
      assert last in steps;
      var v := Run(w, before);
      hide Unsaved, LeavesSettings, Run;
      UnsavedStep(v, last);
    }
  }

  lemma UnsavedStep(w: World, step: Step)
    requires Unsaved(w) && LeavesSettings(step) && !step.LeaveLoop?
    ensures Unsaved(Next(w, step)) && Next(w, step).stored == w.stored
    ensures Next(w, step).shared.dirty == w.shared.dirty && Next(w, step).shared.settings == w.shared.settings
  {
    hide Accepts, Enqueued, HasSetup, PlainPath, NoneChosen, FirstSetup, Without, Preferences.Savable;
    match step {
      case Submit(kind, path) => ChoicesEnqueued(w.shared.queue, Request(kind, path, false, false));
      case Ask(request) => ChoicesEnqueued(w.shared.queue, request);
      case Take =>
        if w.shared.queue != [] {
          ChoicesLeft(w.shared.queue, 0);
        }
      case TakeSetup =>
        var i := FirstSetup(w.shared.queue);
        if i < |w.shared.queue| {
          ChoicesLeft(w.shared.queue, i);
        }
      case _ =>
    }
  }

  // The flush after the worker has left its loop does retry it: the settings
  // are stored exactly when that write succeeds, and stay dirty otherwise.
  lemma ClosingRetries(w: World, ok: bool)
    requires w.worker.Idle? && w.saving.NoSave? && w.shared.stopping && !w.closing && !w.flushed
    requires w.shared.dirty && w.stored != w.shared.settings
    ensures var v := Run(w, [LeaveLoop, BeginFlush(true), EndWrite(ok), NoteFailure]);
            && v.shared.settings == w.shared.settings && v.saving.NoSave? && v.flushed
            && (v.stored == w.shared.settings <==> ok && Preferences.Savable(w.shared.settings))
            && (v.shared.dirty <==> v.stored != w.shared.settings)
  {
    FourSteps(w, LeaveLoop, BeginFlush(true), EndWrite(ok), NoteFailure);
    hide Run, InterfaceStep, TakeAny, TakeFirst, Preferences.Savable;
    var left := Next(w, LeaveLoop);
    assert left == w.(closing := true);
    var writing := Next(left, BeginFlush(true));
    assert writing.saving == Writing(w.shared.settings, true) && !writing.shared.dirty && writing.flushed;
    var written := Next(writing, EndWrite(ok));
    assert written.saving.NoSave? <==> ok && Preferences.Savable(w.shared.settings);
  }

  // ---------------------------------------------------------------------
  // What can be saved

  predicate Storable(p: Settings) {
    Preferences.Savable(p) && Preferences.Stored(p)
  }

  // Everything but the texts can be saved. Settings are like this however they
  // came about: read from a file, the defaults, or either with the default
  // directory put in.
  predicate Sane(p: Settings) {
    && Preferences.Stored(p)
    && Preferences.Savable(p.(xemuOverride := "", preservationDirectory := "", deviceId := "", deviceLabel := ""))
  }

  lemma LoadedIsSane(text: string)
    ensures Preferences.Decode(text).Some? ==> Sane(Preferences.Decode(text).value)
    ensures Sane(Preferences.DEFAULTS)
  {
    if Preferences.Decode(text).Some? {
      Preferences.DecodingKeepsLoadable(text, Preferences.NOTHING);
    }
  }

  // The texts that `Save` looks at.
  datatype Text = OverrideText | DirectoryText | DeviceText | LabelText

  function TextOf(p: Settings, text: Text): string {
    match text
    case OverrideText => p.xemuOverride
    case DirectoryText => p.preservationDirectory
    case DeviceText => p.deviceId
    case LabelText => p.deviceLabel
  }

  // The step puts another value in place of the text. A selection of a drive
  // that is not listed keeps the label.
  predicate Replaces(v: World, step: Step, text: Text) {
    match text
    case OverrideText => step.Submit? && Edits(v.shared, step)
    case DirectoryText => step.Directory? && Edits(v.shared, step)
    case DeviceText => SelectsDrive(v, step)
    case LabelText => SelectsDrive(v, step) && (step.listed.Some? || v.worker.id == "")
  }

  predicate Replaced(w: World, steps: seq<Step>, text: Text) {
    steps != [] && (var before := steps[..|steps| - 1];
                    Replaced(w, before, text) || Replaces(Run(w, before), steps[|steps| - 1], text))
  }

  lemma {:induction false} StepLeavesText(v: World, step: Step, text: Text)
    requires !Replaces(v, step, text)
    ensures TextOf(Next(v, step).shared.settings, text) == TextOf(v.shared.settings, text)
  {
    hide InterfaceStep, WorkerStep;
    if ByInterface(step) {
      InterfaceLeavesText(v, step, text);
    } else {
      WorkerLeavesText(v, step, text);
    }
  }

  lemma {:induction false} InterfaceLeavesText(v: World, step: Step, text: Text)
    requires ByInterface(step) && !Replaces(v, step, text)
    ensures TextOf(InterfaceStep(v.shared, step).settings, text) == TextOf(v.shared.settings, text)
  {
    hide Enqueued, PlainPath, ValidDisplay, AcceptsSetup, AcceptsDrive, AllowsRequest, IsSetup;
    match step {
      case AutoStart(_) =>
      case ChangeDisplay(_, _) =>
      case Directory(_, _) =>
      case Submit(_, _) =>
      case Ask(_) =>
      case Pick(_) =>
      case Stop =>
    }
  }

  lemma {:induction false} WorkerLeavesText(w: World, step: Step, text: Text)
    requires !ByInterface(step) && !Replaces(w, step, text)
    ensures TextOf(WorkerStep(w, step).shared.settings, text) == TextOf(w.shared.settings, text)
  {
    hide HasSetup, FirstSetup, Without, Preferences.Savable, MayFlush, FlushNeeded, IsSetup;
    match step {
      case TakeSetup =>
      case Take =>
      case BeginFlush(_) =>
      case EndWrite(_) =>
      case Select(_) =>
      case _ =>
    }
  }

  // The setters refuse every text that `Save` would refuse, and selected ids
  // were checked when they were picked; only the label of a drive is copied
  // from the inventory unchecked.
  ghost predicate SaneKept(w: World) {
    && Sane(w.shared.settings)
    && (w.shared.selectionRequested ==> PlainPath(w.shared.requestedDevice, Preferences.DEVICE_ID_CAPACITY))
    && (w.worker.Selecting? ==> PlainPath(w.worker.id, Preferences.DEVICE_ID_CAPACITY))
  }

  lemma {:induction false} StepKeepsSane(w: World, step: Step)
    requires SaneKept(w)
    ensures SaneKept(Next(w, step))
    ensures forall text: Text :: Replaces(w, step, text) && !text.LabelText? ==>
              Preferences.PlainText(TextOf(Next(w, step).shared.settings, text))
  {
    hide InterfaceStep, WorkerStep;
    if ByInterface(step) {
      InterfaceKeepsSane(w.shared, step);
      InterfaceKeepsId(w.shared, step);
      forall text: Text | Replaces(w, step, text)
        ensures Preferences.PlainText(TextOf(InterfaceStep(w.shared, step).settings, text))
      {
        InterfaceReplacesPlain(w, step, text);
      }
    } else {
      WorkerKeepsSane(w, step);
    }
  }

  lemma {:induction false} InterfaceKeepsSane(s: Shared, step: Step)
    requires Sane(s.settings) && ByInterface(step)
    ensures Sane(InterfaceStep(s, step).settings)
  {
    hide Enqueued, IsSetup, AllowsRequest, AcceptsDrive, Busy, Preferences.PlainText;
    match step {
      case AutoStart(_) =>
      case ChangeDisplay(_, _) =>
      case Directory(_, _) =>
      case Submit(_, _) =>
      case Ask(_) =>
      case Pick(_) =>
      case Stop =>
    }
  }

  lemma {:induction false} InterfaceKeepsId(s: Shared, step: Step)
    requires ByInterface(step)
    requires s.selectionRequested ==> PlainPath(s.requestedDevice, Preferences.DEVICE_ID_CAPACITY)
    ensures var after := InterfaceStep(s, step);
            after.selectionRequested ==> PlainPath(after.requestedDevice, Preferences.DEVICE_ID_CAPACITY)
  {
    hide Enqueued, IsSetup, AllowsRequest, AcceptsSetup, ValidDisplay, Busy, Preferences.PlainText;
    match step {
      case AutoStart(_) =>
      case ChangeDisplay(_, _) =>
      case Directory(_, _) =>
      case Submit(_, _) =>
      case Ask(_) =>
      case Pick(_) =>
      case Stop =>
    }
  }

  lemma {:induction false} InterfaceReplacesPlain(w: World, step: Step, text: Text)
    requires ByInterface(step) && Replaces(w, step, text)
    ensures Preferences.PlainText(TextOf(InterfaceStep(w.shared, step).settings, text))
  {
    hide Enqueued, IsSetup, Busy, ValidDisplay, Preferences.PlainText;
    match text {
      case OverrideText =>
      case DirectoryText =>
      case DeviceText =>
      case LabelText =>
    }
  }

  lemma {:induction false} WorkerKeepsSane(w: World, step: Step)
    requires SaneKept(w) && !ByInterface(step)
    ensures SaneKept(WorkerStep(w, step))
    ensures forall text: Text :: Replaces(w, step, text) && !text.LabelText? ==>
              Preferences.PlainText(TextOf(WorkerStep(w, step).shared.settings, text))
  {
    hide HasSetup, FirstSetup, Without, MayFlush, FlushNeeded, IsSetup, Preferences.PlainText;
    match step {
      case TakeSetup =>
      case Take =>
      case BeginFlush(_) =>
      case EndWrite(_) =>
      case TakeSelection =>
      case Select(_) =>
      case _ =>
    }
  }

  lemma {:induction false} RunKeepsTexts(w: World, steps: seq<Step>)
    requires Fresh(w) && Sane(w.shared.settings)
    ensures SaneKept(Run(w, steps))
    ensures forall text: Text :: !text.LabelText? ==>
              if Replaced(w, steps, text)
              then Preferences.PlainText(TextOf(Run(w, steps).shared.settings, text))
              else TextOf(Run(w, steps).shared.settings, text) == TextOf(w.shared.settings, text)
  {
    if steps != [] {
      var before, last := steps[..|steps| - 1], steps[|steps| - 1];
      RunKeepsTexts(w, before);
      var v := Run(w, before);
      hide Fresh, SaneKept, Next, Replaces, TextOf, Sane, Preferences.PlainText;
      StepKeepsSane(v, last);
      forall text: Text | !Replaces(v, last, text)
        ensures TextOf(Next(v, last).shared.settings, text) == TextOf(v.shared.settings, text)
      {
        StepLeavesText(v, last, text);
      }
    }
  }

  // After any run, whatever was loaded: the settings can be saved exactly when
  // the label of the drive chosen last is plain and every other text was plain
  // when it was loaded or has been replaced since.
  lemma SavableExactlyWithPlainTexts(w: World, steps: seq<Step>)
    requires Fresh(w) && Sane(w.shared.settings)
    ensures Preferences.Stored(Run(w, steps).shared.settings)
    ensures Preferences.Savable(Run(w, steps).shared.settings) <==>
              && Preferences.PlainText(ChosenDrive(w, steps).caption)
              && (Preferences.PlainText(w.shared.settings.xemuOverride) || Replaced(w, steps, OverrideText))
              && (Preferences.PlainText(w.shared.settings.preservationDirectory) || Replaced(w, steps, DirectoryText))
              && (Preferences.PlainText(w.shared.settings.deviceId) || Replaced(w, steps, DeviceText))
  {
    hide Fresh, ChosenDrive, WrittenDrive, Run, Preferences.PlainText, Replaced;
    RunKeepsTexts(w, steps);
    RunKeepsDrive(w, steps);
    var p := Run(w, steps).shared.settings;
    hide SaneKept;
    assert Preferences.Savable(p) <==>
             && Preferences.PlainText(TextOf(p, LabelText)) && Preferences.PlainText(TextOf(p, OverrideText))
             && Preferences.PlainText(TextOf(p, DirectoryText)) && Preferences.PlainText(TextOf(p, DeviceText));
  }

  // As long as a text that is not plain is not replaced, no edit of anything
  // reaches the file.
  lemma {:induction false} UnsavableIsNotStored(w: World, steps: seq<Step>, text: Text)
    requires w.saving.NoSave? && !Preferences.PlainText(TextOf(w.shared.settings, text)) && !Replaced(w, steps, text)
    ensures var v := Run(w, steps);
            && v.stored == w.stored && !Preferences.Savable(v.shared.settings)
            && TextOf(v.shared.settings, text) == TextOf(w.shared.settings, text)
            && (v.saving.Writing? ==> !Preferences.PlainText(TextOf(v.saving.copy, text)))
  {
    if steps != [] {
      var before, last := steps[..|steps| - 1], steps[|steps| - 1];
      UnsavableIsNotStored(w, before, text);
      hide Replaces, Next, TextOf;
      UnsavableStep(Run(w, before), last, text);
    }
    NotPlainNotSavable(Run(w, steps).shared.settings, text);
  }

  lemma NotPlainNotSavable(p: Settings, text: Text)
    ensures !Preferences.PlainText(TextOf(p, text)) ==> !Preferences.Savable(p)
  {
  }

  lemma {:induction false} UnsavableStep(v: World, step: Step, text: Text)
    requires !Preferences.PlainText(TextOf(v.shared.settings, text)) && !Replaces(v, step, text)
    requires v.saving.Writing? ==> !Preferences.PlainText(TextOf(v.saving.copy, text))
    ensures var u := Next(v, step);
            && u.stored == v.stored && TextOf(u.shared.settings, text) == TextOf(v.shared.settings, text)
            && (u.saving.Writing? ==> !Preferences.PlainText(TextOf(u.saving.copy, text)))
  {
    StepLeavesText(v, step, text);
    if v.saving.Writing? {
      NotPlainNotSavable(v.saving.copy, text);
    }
    hide InterfaceStep, TextOf, Replaces, Preferences.Savable, Preferences.PlainText, TakeAny, TakeFirst;
    match step {
      case BeginFlush(_) =>
      case EndWrite(_) =>
      case Select(_) =>
      case _ =>
    }
  }

  // The edit that replaces a bad path makes the settings savable again, and
  // the flush after it stores them.
  lemma EditRepairs(w: World, path: string)
    requires Fresh(w) && !Busy(w.shared) && PlainPath(path, Preferences.PATH_CAPACITY)
    requires Preferences.Savable(w.shared.settings.(xemuOverride := path))
    ensures var v := Run(w, [Step.Submit(SetXemu, path), BeginFlush(false), EndWrite(true)]);
            && v.stored == v.shared.settings == w.shared.settings.(xemuOverride := path)
            && v.saving.NoSave? && !v.shared.dirty
  {
    var edit, begin, end := Step.Submit(SetXemu, path), BeginFlush(false), EndWrite(true);
    assert [edit, begin, end][..2] == [edit, begin] && [edit, begin][..1] == [edit] && [edit][..0] == [];
    assert Run(w, []) == w;
    var edited := Next(w, edit);
    assert edited.shared.settings == w.shared.settings.(xemuOverride := path) && edited.shared.dirty;
    hide Preferences.Savable;
    assert Run(w, [edit]) == edited;
    assert Run(w, [edit, begin]) == Next(edited, begin);
  }

  // A drive whose name holds a carriage return makes the settings unsavable.
  lemma LabelCanMakeSettingsUnsavable(w: World)
    requires Fresh(w) && Storable(w.shared.settings) && !Busy(w.shared)
    ensures exists steps :: var v := Run(w, steps);
              v.worker.Idle? && v.saving.NoSave? && v.stored == w.stored && !Preferences.Savable(v.shared.settings)
  {
    hide Run, Fresh, Busy, Preferences.PlainText;
    var listed := "a\rb (usb)";
    SelectionRun(w, Some(listed), true);
    assert listed[1] == '\r';
    NotPlain(listed, 1);
  }

  lemma NotPlain(text: string, i: nat)
    requires i < |text| && text[i] == '\r'
    ensures !Preferences.PlainText(text)
  {
  }
}
