// What the session runtime of src/app does to drives, exports and emulators,
// as a log of events, and what every log it writes guarantees.
//
// A `Handle` stands for the one open medium behind a source, a partition, a
// disc or an export: the adapters move it, so it is the same handle wherever
// it is kept. `Permitted` is the rule each event obeys when it happens; the
// methods of the runtime are proved never to record an event against it.

module SessionLedger {
  import opened Bytes
  import opened PhysicalMonitors

  datatype Origin = Drive(id: string) | Image

  datatype Handle = Handle(serial: nat, origin: Origin)

  datatype Device = Device(id: string, supported: bool, accessible: bool, mediaKnown: bool, mediaPresent: bool)

  // What a medium turns out to be: the profile of a disc, or the platform of
  // an image file.
  datatype Profile =
    | Xgd1 | Xgd2 | Xgd3 | GameCube | Wii | UnknownProfile
    | XboxImage | Xbox360Image | UnknownImage

  // A medium of a handle, at one of its generations.
  datatype Sighting = Sighting(handle: Handle, generation: nat)

  // `ClosedBadly` is a close that consumed the handle and yet reported an error.
  datatype Event =
    | Opened(handle: Handle)
    | OpenFailed(id: string)
    | Recognised(handle: Handle, profile: Profile)
    | ImageWritten(handle: Handle, compact: bool)
    | Closed(handle: Handle)
    | ClosedBadly(handle: Handle)
    | CloseFailed(handle: Handle)
    | Launched(handle: Handle)
    | Polled(running: bool)
    | Reaped
    | Observed(handle: Handle, observation: Observation)
    | ObserveFailed(handle: Handle)
    | Latched(handle: Handle, generation: nat)
    | EjectCompleted(id: string, generation: nat)
    | EjectIssued(id: string)
    | Inventoried(enabled: bool, excluded: set<string>, found: Option<seq<Device>>)

  // `reader` is the handle a live emulator reads. The next three fields say
  // what the events just before amount to: a sighting of an eject request, a
  // sighting that authorises the release of its handle, and that release.
  datatype Ledger = Ledger(
    next: nat, live: set<Handle>, reader: Option<Handle>,
    seen: Option<Sighting>, authorised: Option<Sighting>, released: Option<Sighting>,
    latches: set<Sighting>)

  const START: Ledger := Ledger(0, {}, None, None, None, None, {})

  predicate SameDrive(a: Handle, b: Handle) {
    a.origin.Drive? && a.origin == b.origin
  }

  predicate Permitted(s: Ledger, event: Event) {
    match event
    case Opened(h) => s.reader.None? && h.serial == s.next && forall k :: k in s.live ==> !SameDrive(k, h)
    case OpenFailed(id) => s.reader.None? && forall k :: k in s.live ==> k.origin != Drive(id)
    case Recognised(h, _) => h in s.live
    case ImageWritten(h, _) => h in s.live && s.reader.None?
    case Closed(h) => h in s.live && s.reader.None?
    case ClosedBadly(h) => h in s.live && s.reader.None?
    case CloseFailed(h) => h in s.live && s.reader.None?
    case Launched(h) => h in s.live && s.reader.None?
    case Polled(_) => s.reader.Some?
    case Reaped => s.reader.Some?
    case Observed(h, o) => h in s.live && (h.origin.Image? ==> o.event != EjectRequest)
    case ObserveFailed(h) => h in s.live
    case Latched(h, generation) => s.seen == Some(Sighting(h, generation))
    case EjectCompleted(id, generation) =>
      && s.reader.None?
      && s.released.Some? && s.released.value in s.latches
      && s.released.value.generation == generation && s.released.value.handle.origin == Drive(id)
    case EjectIssued(id) => s.reader.None?
    case Inventoried(enabled, excluded, _) =>
      enabled ==> s.reader.None? && forall h :: h in s.live && h.origin.Drive? ==> h.origin.id in excluded
  }

  function Apply(s: Ledger, event: Event): Ledger {
    var quiet := s.(seen := None, authorised := None, released := None);
    match event
    case Opened(h) => quiet.(next := s.next + 1, live := s.live + {h})
    case Closed(h) =>
      quiet.(live := s.live - {h},
             released := if s.authorised.Some? && s.authorised.value.handle == h then s.authorised else None)
    case ClosedBadly(h) => quiet.(live := s.live - {h})
    case Launched(h) => quiet.(reader := Some(h))
    case Reaped => quiet.(reader := None)
    case Observed(h, o) =>
      quiet.(seen := if o.event == EjectRequest then Some(Sighting(h, o.generation)) else None,
             authorised := if EjectRequestMatches(o, o.generation) && s.reader.None?
                           then Some(Sighting(h, o.generation)) else None)
    case Latched(h, generation) => quiet.(latches := s.latches + {Sighting(h, generation)})
    case _ => quiet
  }

  function Replay(log: seq<Event>): Ledger {
    if log == [] then START else Apply(Replay(log[..|log| - 1]), log[|log| - 1])
  }

  predicate Legal(log: seq<Event>) {
    log == [] || (Legal(log[..|log| - 1]) && Permitted(Replay(log[..|log| - 1]), log[|log| - 1]))
  }

  // An explicit eject: the drive it was sent to, and what was open then.
  datatype Ejection = Ejection(id: string, live: set<Handle>)

  // The explicit ejects of a log.
  function Ejections(log: seq<Event>): seq<Ejection> {
    if log == [] then []
    else
      var before, last := log[..|log| - 1], log[|log| - 1];
      Ejections(before) + (if last.EjectIssued? then [Ejection(last.id, Replay(before).live)] else [])
  }

  // An attempt to open a drive, successful or not.
  predicate OpensDrive(event: Event) {
    event.OpenFailed? || (event.Opened? && event.handle.origin.Drive?)
  }

  function DriveOpens(log: seq<Event>): nat {
    if log == [] then 0
    else DriveOpens(log[..|log| - 1]) + (if OpensDrive(log[|log| - 1]) then 1 else 0)
  }

  // A longer legal log; its prefixes are legal too.
  lemma Extend(log: seq<Event>, event: Event)
    ensures Replay(log + [event]) == Apply(Replay(log), event)
    ensures Legal(log + [event]) <==> Legal(log) && Permitted(Replay(log), event)
    ensures Ejections(log + [event])
         == Ejections(log) + (if event.EjectIssued? then [Ejection(event.id, Replay(log).live)] else [])
    ensures DriveOpens(log + [event]) == DriveOpens(log) + (if OpensDrive(event) then 1 else 0)
  {
    assert (log + [event])[..|log|] == log;
  }

  lemma {:induction false} LegalPrefix(log: seq<Event>, i: nat)
    requires Legal(log) && i <= |log|
    ensures Legal(log[..i])
    ensures i < |log| ==> Permitted(Replay(log[..i]), log[i]) && Replay(log[..i + 1]) == Apply(Replay(log[..i]), log[i])
  {
    if i < |log| {
      var before := log[..|log| - 1];
      if i < |before| {
        LegalPrefix(before, i);
        assert before[..i] == log[..i] && before[..i + 1] == log[..i + 1];
      } else {
        assert log[..i] == before && log[..i + 1] == log;
      }
    } else {
      assert log[..i] == log;
    }
  }

  // Every explicit eject and every attempt to open a drive behind the first
  // `n` events shows in the list and in the count.
  lemma {:induction false} EveryEventCounts(log: seq<Event>, n: nat)
    requires n <= |log|
    ensures Ejections(log[..n]) <= Ejections(log) && DriveOpens(log[..n]) <= DriveOpens(log)
    ensures forall i :: n <= i < |log| && log[i].EjectIssued? ==>
              Ejection(log[i].id, Replay(log[..i]).live) in Ejections(log)[|Ejections(log[..n])|..]
    ensures forall i :: n <= i < |log| && OpensDrive(log[i]) ==> DriveOpens(log[..n]) < DriveOpens(log)
  {
    if n == |log| {
      assert log[..n] == log;
    } else {
      var before := log[..|log| - 1];
      assert before[..n] == log[..n];
      EveryEventCounts(before, n);
      forall i | n <= i < |log| && log[i].EjectIssued?
        ensures Ejection(log[i].id, Replay(log[..i]).live) in Ejections(log)[|Ejections(log[..n])|..]
      {
        EjectCounts(log, |Ejections(log[..n])|, i);
      }
      forall i | n <= i < |log| && OpensDrive(log[i]) ensures DriveOpens(log[..n]) < DriveOpens(log) {
        assert i < |before| ==> OpensDrive(before[i]);
      }
    }
  }

  lemma EjectCounts(log: seq<Event>, shown: nat, i: nat)
    requires i < |log| && log[i].EjectIssued?
    requires shown <= |Ejections(log[..|log| - 1])|
    requires i < |log| - 1 ==>
               Ejection(log[i].id, Replay(log[..|log| - 1][..i]).live) in Ejections(log[..|log| - 1])[shown..]
    ensures Ejection(log[i].id, Replay(log[..i]).live) in Ejections(log)[shown..]
  {
    hide Replay;
    var before := log[..|log| - 1];
    var all := Ejections(log);
    if i < |before| {
      assert before[..i] == log[..i];
      assert Ejections(before)[shown..] <= all[shown..];
    } else {
      assert log[..i] == before;
      assert all[|all| - 1] == Ejection(log[i].id, Replay(log[..i]).live);
    }
  }

  // ---------------------------------------------------------------------
  // The medium is never touched under a live emulator

  // No emulator started at `i` has ended before `j`.
  predicate Running(log: seq<Event>, i: nat, j: nat)
    requires i < j <= |log|
  {
    log[i].Launched? && forall k :: i < k < j ==> log[k] != Reaped
  }

  lemma {:induction false} ReaderUntilReaped(log: seq<Event>, i: nat, j: nat)
    requires Legal(log) && i < j <= |log| && Running(log, i, j)
    ensures Replay(log[..j]).reader == Some(log[i].handle)
    decreases j
  {
    LegalPrefix(log, j - 1);
    if i < j - 1 {
      ReaderUntilReaped(log, i, j - 1);
    }
  }

  predicate TouchesMedia(event: Event) {
    || event.Opened? || event.OpenFailed? || event.Closed? || event.ClosedBadly? || event.CloseFailed?
    || event.Launched? || event.EjectCompleted? || event.EjectIssued? || event.ImageWritten?
    || (event.Inventoried? && event.enabled)
  }

  // From the launch of an emulator until it is reaped no handle is opened or
  // closed, not even in vain, no second emulator starts, nothing is ejected
  // and the inventory queries no medium.
  lemma NothingTouchesMediaUnderAnEmulator(log: seq<Event>, i: nat, j: nat)
    requires Legal(log) && i < j < |log| && Running(log, i, j)
    ensures !TouchesMedia(log[j])
  {
    ReaderUntilReaped(log, i, j);
    LegalPrefix(log, j);
  }

  // ---------------------------------------------------------------------
  // No handle is lost or used twice

  lemma {:induction false} SerialsBelowNext(log: seq<Event>, i: nat)
    requires Legal(log)
    ensures i < |log| && log[i].Opened? ==> log[i].handle.serial < Replay(log).next
    ensures forall h :: h in Replay(log).live ==> h.serial < Replay(log).next
  {
    if log != [] {
      var before := log[..|log| - 1];
      SerialsBelowNext(before, i);
    }
  }

  // The handle is gone, whatever the close reported.
  predicate Ends(event: Event, h: Handle) {
    event == Closed(h) || event == ClosedBadly(h)
  }

  predicate WasClosed(log: seq<Event>, h: Handle) {
    Closed(h) in log || ClosedBadly(h) in log
  }

  // A handle is live exactly when it was opened and has not been closed.
  lemma {:induction false} LiveIsOpenedNotClosed(log: seq<Event>, h: Handle)
    requires Legal(log)
    ensures h in Replay(log).live <==> Opened(h) in log && !WasClosed(log, h)
  {
    if log != [] {
      var before, last := log[..|log| - 1], log[|log| - 1];
      LiveIsOpenedNotClosed(before, h);
      assert log == before + [last];
      if last == Opened(h) && Opened(h) in before {
        var i :| 0 <= i < |before| && before[i] == Opened(h);
        SerialsBelowNext(before, i);
      }
      if last == Opened(h) {
        if WasClosed(before, h) {
          ClosedWasOpened(before, h);
        }
      }
    }
  }

  lemma {:induction false} ClosedWasOpened(log: seq<Event>, h: Handle)
    requires Legal(log) && WasClosed(log, h)
    ensures Opened(h) in log
  {
    var before, last := log[..|log| - 1], log[|log| - 1];
    assert log == before + [last];
    if WasClosed(before, h) {
      ClosedWasOpened(before, h);
    } else {
      LiveIsOpenedNotClosed(before, h);
    }
  }

  // Every handle is opened at most once and closed at most once.
  lemma OpenedAndClosedOnce(log: seq<Event>, i: nat, j: nat)
    requires Legal(log) && i < j < |log|
    requires log[i] == log[j]
    ensures !log[i].Opened? && !log[i].Closed? && !log[i].ClosedBadly?
  {
    LegalPrefix(log, j);
    var before := log[..j];
    assert before[i] == log[i];
    if log[j].Opened? {
      SerialsBelowNext(before, i);
    }
    if log[j].Closed? || log[j].ClosedBadly? {
      LiveIsOpenedNotClosed(before, log[j].handle);
    }
  }

  // A handle that was opened and is no longer live was closed in between.
  lemma DeadWasClosed(log: seq<Event>, i: nat, j: nat)
    requires Legal(log) && i < j <= |log| && log[i].Opened? && log[i].handle !in Replay(log[..j]).live
    ensures exists k :: i < k < j && Ends(log[k], log[i].handle)
  {
    var h := log[i].handle;
    var before := log[..j];
    LegalPrefix(log, j);
    LiveIsOpenedNotClosed(before, h);
    assert before[i] == Opened(h);
    var k :| 0 <= k < |before| && Ends(before[k], h);
    if k < i {
      LegalPrefix(log, i);
      assert Ends(log[..i][k], h);
      ClosedWasOpened(log[..i], h);
      var m :| 0 <= m < i && log[..i][m] == Opened(h);
      OpenedAndClosedOnce(log, m, i);
    }
    assert Ends(log[k], h) && k != i;
  }

  // A drive is never opened again while a handle of it is live.
  lemma DriveIsReleasedBetweenOpens(log: seq<Event>, i: nat, j: nat)
    requires Legal(log) && i < j < |log|
    requires log[i].Opened? && log[j].Opened? && SameDrive(log[i].handle, log[j].handle)
    ensures exists k :: i < k < j && Ends(log[k], log[i].handle)
  {
    LegalPrefix(log, j);
    DeadWasClosed(log, i, j);
  }

  // An enabled inventory queries no drive that still has a live handle.
  lemma InventorySparesOwnedDrives(log: seq<Event>, i: nat, j: nat)
    requires Legal(log) && i < j < |log|
    requires log[i].Opened? && log[i].handle.origin.Drive? && log[j].Inventoried? && log[j].enabled
    ensures log[i].handle.origin.id in log[j].excluded || exists k :: i < k < j && Ends(log[k], log[i].handle)
  {
    LegalPrefix(log, j);
    if log[i].handle !in Replay(log[..j]).live {
      DeadWasClosed(log, i, j);
    }
  }

  // ---------------------------------------------------------------------
  // Only the requested medium is ejected

  // An authorising sighting is the event just before it counts.
  lemma AuthorisedIsLast(log: seq<Event>)
    requires Legal(log) && log != []
    ensures var s := Replay(log);
            s.authorised.Some? ==>
              var last := log[|log| - 1];
              && last.Observed? && last.handle == s.authorised.value.handle
              && EjectRequestMatches(last.observation, s.authorised.value.generation)
              && Replay(log[..|log| - 1]).reader.None?
    ensures var s := Replay(log);
            s.seen.Some? ==>
              var last := log[|log| - 1];
              && last.Observed? && last.handle == s.seen.value.handle
              && last.observation.event == EjectRequest && last.observation.generation == s.seen.value.generation
  {
  }

  lemma ReleasedIsLast(log: seq<Event>)
    requires Legal(log) && Replay(log).released.Some?
    ensures |log| >= 2
    ensures var r := Replay(log).released.value;
            && log[|log| - 1] == Closed(r.handle)
            && log[|log| - 2].Observed? && log[|log| - 2].handle == r.handle
            && EjectRequestMatches(log[|log| - 2].observation, r.generation)
            && Replay(log[..|log| - 2]).reader.None?
  {
    var before := log[..|log| - 1];
    assert Replay(before).authorised.Some?;
    AuthorisedIsLast(before);
    assert before[..|before| - 1] == log[..|log| - 2];
  }

  lemma {:induction false} LatchWasSeen(log: seq<Event>, s: Sighting) returns (i: nat)
    requires Legal(log) && s in Replay(log).latches
    ensures 0 < i < |log| && log[i] == Latched(s.handle, s.generation)
    ensures log[i - 1].Observed? && log[i - 1].handle == s.handle
    ensures log[i - 1].observation.event == EjectRequest && log[i - 1].observation.generation == s.generation
  {
    var before, last := log[..|log| - 1], log[|log| - 1];
    if s in Replay(before).latches {
      i := LatchWasSeen(before, s);
    } else {
      i := |log| - 1;
      assert before != [];
      AuthorisedIsLast(before);
    }
  }

  predicate RequestedAt(log: seq<Event>, i: nat, h: Handle, generation: nat) {
    && 0 < i < |log| && log[i] == Latched(h, generation)
    && log[i - 1].Observed? && log[i - 1].handle == h
    && log[i - 1].observation.event == EjectRequest && log[i - 1].observation.generation == generation
  }

  // A drive-eject request is completed only for a drive whose handle was
  // closed by the event just before, only if the event before that observed
  // the medium of that handle to be present, to ask for ejection and to be of
  // the requested generation while no emulator ran, and only if the request
  // was latched earlier from an observation of that same handle and generation.
  lemma OnlyRequestedMediaAreEjected(log: seq<Event>, j: nat) returns (h: Handle, i: nat)
    requires Legal(log) && j < |log| && log[j].EjectCompleted?
    ensures j >= 2 && h.origin == Drive(log[j].id)
    ensures log[j - 1] == Closed(h)
    ensures log[j - 2] == Event.Observed(h, Observation(Present, log[j].generation, EjectRequest))
    ensures Replay(log[..j - 2]).reader.None?
    ensures i < j - 2 && RequestedAt(log, i, h, log[j].generation)
  {
    LegalPrefix(log, j);
    var before := log[..j];
    var r := Replay(before).released.value;
    h := r.handle;
    ReleasedIsLast(before);
    i := LatchWasSeen(before, r);
    assert before[..|before| - 2] == log[..j - 2];
    assert log[i] == before[i] && log[i - 1] == before[i - 1];
    assert log[j - 1] == before[j - 1] && log[j - 2] == before[j - 2];
  }

  // The ejected drive has no live handle left.
  lemma EjectedDriveIsReleased(log: seq<Event>, j: nat)
    requires Legal(log) && j < |log| && log[j].EjectCompleted?
    ensures forall k :: k in Replay(log[..j]).live ==> k.origin != Drive(log[j].id)
  {
    hide EjectRequestMatches, RequestedAt, Legal;
    var h, i := OnlyRequestedMediaAreEjected(log, j);
    LegalPrefix(log, j - 1);
    LiveDrivesDiffer(log[..j - 1]);
    assert Replay(log[..j]) == Apply(Replay(log[..j - 1]), Closed(h));
  }

  // No two live handles are of the same drive.
  lemma {:induction false} LiveDrivesDiffer(log: seq<Event>)
    requires Legal(log)
    ensures forall a, b :: a in Replay(log).live && b in Replay(log).live && SameDrive(a, b) ==> a == b
  {
    if log != [] {
      LiveDrivesDiffer(log[..|log| - 1]);
    }
  }
}
