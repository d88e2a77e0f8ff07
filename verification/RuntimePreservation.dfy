// Preservation of a physical disc: src/app/runtime_preservation.c. The opened
// source moves through a chain of adapters in a session of its own, and a
// source that cannot be closed at the end moves into the media session.

module RuntimePreservation {
  import opened Bytes
  import opened SessionLedger
  import opened SessionState
  import opened RuntimePlatform
  import opened RuntimeMedia
  import opened RuntimeDrives
  import opened RuntimeSession
  import opened Phases

  datatype Sources = Sources(
    whole: Option<Handle>, partition: Option<Handle>, patched: Option<Handle>, compact: Option<Handle>)
  {
    // The adapters move: at most one of them is valid.
    predicate Single() {
      && (compact.Some? ==> patched.None? && partition.None? && whole.None?)
      && (patched.Some? ==> partition.None? && whole.None?)
      && (partition.Some? ==> whole.None?)
    }

    // The outermost valid source.
    function OwnedSource(): Option<Handle> {
      if compact.Some? then compact
      else if patched.Some? then patched
      else if partition.Some? then partition
      else whole
    }

    function Loose(): set<Handle> {
      (if whole.Some? then {whole.value} else {})
      + (if partition.Some? then {partition.value} else {})
      + (if patched.Some? then {patched.value} else {})
      + (if compact.Some? then {compact.value} else {})
    }
  }

  const NO_SOURCES: Sources := Sources(None, None, None, None)

  // Closing the outermost source closes everything the session still holds.
  lemma OwnedSourceIsAll(s: Sources)
    requires s.Single()
    ensures s.Loose() == if s.OwnedSource().Some? then {s.OwnedSource().value} else {}
  {
  }

  // The current device may be opened, or its medium is the loose one.
  ghost predicate LooseOk(rt: Runtime, loose: set<Handle>)
    reads rt
  {
    && rt.media == NO_SESSION && !PendingFor(rt.pending, rt.opticalDevice.id)
    && forall h :: h in loose ==> rt.opticalDevice.id != "" && h.origin == Drive(rt.opticalDevice.id)
  }

  // Opens the disc and looks for its volume. A failure may leave the source.
  method InspectSource(rt: Runtime) returns (ok: bool, sources: Sources)
    requires rt.Valid({}) && LooseOk(rt, {})
    modifies rt`acquired, rt`log, rt`ledger, rt`driveOpens
    ensures sources.Single() && (sources == NO_SOURCES || sources == Sources(sources.whole, None, None, None))
    ensures rt.Valid(sources.Loose()) && LooseOk(rt, sources.Loose())
    ensures ok ==> sources.whole.Some?
    ensures sources.whole.Some? ==>
              && sources.whole.value == Handle(old(rt.acquired), Drive(rt.opticalDevice.id))
              && rt.log == old(rt.log) + [Opened(sources.whole.value)]
    ensures rt.ledger.latches == old(rt.ledger).latches && rt.driveOpens <= old(rt.driveOpens) + 1
    ensures old(rt.log) <= rt.log
    ensures rt.reliable && rt.opticalDevice.id != "" ==> ok
  {
    hide Runtime.Tracked, Table, PendingFor, PendingHeld, DriveOk;
    NotOwned(rt);
    NoDriveLive(rt);
    ghost var before := rt.ledger;
    var whole;
    ok, whole := OpenDrive(rt, rt.opticalDevice);
    sources := Sources(whole, None, None, None);
    if whole.Some? {
      CustodyWithNew(before.live, rt.media, rt.pending, {}, whole.value);
      assert {} + {whole.value} == {whole.value} == sources.Loose();
    }
    if ok {
      ok := Attempted(rt);
    }
  }

  // Each adapter takes over its source or leaves it untouched.
  method BuildCompactSource(rt: Runtime, start: Sources) returns (ok: bool, sources: Sources)
    requires start.Single() && start.whole.Some?
    ensures sources.Single() && sources.Loose() == start.Loose()
    ensures ok ==> sources.compact == start.whole
    ensures rt.reliable ==> ok
  {
    sources := start;
    ok := false;
    var patchesCollected := Attempted(rt);
    if !patchesCollected {
      return;
    }
    var partitioned := Attempted(rt);
    if !partitioned {
      return;
    }
    sources := sources.(partition := sources.whole, whole := None);
    var patched := Attempted(rt);
    if !patched {
      return;
    }
    sources := sources.(patched := sources.partition, partition := None);
    var compacted := Attempted(rt);
    if !compacted {
      return;
    }
    sources := sources.(compact := sources.patched, patched := None);
    ok := true;
  }

  // While the image is written the drive list is refreshed at times, under
  // the phase of the preservation itself.
  method WriteImage(rt: Runtime, devices: seq<Entry>, unlisted: bool, sources: Sources)
      returns (ok: bool, listed: seq<Entry>, failed: bool)
    requires sources.Single() && sources.OwnedSource().Some?
    requires rt.Valid(sources.Loose()) && !rt.process && InventoryOk(devices, rt.pending)
    modifies rt`log, rt`ledger
    ensures rt.Valid(sources.Loose()) && InventoryOk(listed, rt.pending)
    ensures rt.ledger.latches == old(rt.ledger).latches && old(rt.log) <= rt.log
    ensures failed && !unlisted ==> forall k :: 0 <= k < |listed| ==> !listed[k].connected
    ensures ok ==>
              && |rt.log| > |old(rt.log)|
              && rt.log[|rt.log| - 1] == ImageWritten(sources.OwnedSource().value, sources.compact.Some?)
    ensures rt.reliable ==> ok
  {
    hide Runtime.Tracked, Custody, DriveOk, InventoryOk;
    listed, failed := devices, unlisted;
    var rounds: int := *;
    for round := 0 to if rounds < 0 then 0 else rounds
      invariant rt.Valid(sources.Loose()) && InventoryOk(listed, rt.pending)
      invariant rt.ledger.latches == old(rt.ledger).latches && old(rt.log) <= rt.log
      invariant failed && !unlisted ==> forall k :: 0 <= k < |listed| ==> !listed[k].connected
    {
      var refreshed, found := Refresh(rt, Preserving, listed, sources.Loose());
      listed, failed := found, !refreshed;
    }
    ok := WriteFromSource(rt, sources);
  }

  method WriteFromSource(rt: Runtime, sources: Sources) returns (ok: bool)
    requires sources.Single() && sources.OwnedSource().Some? && rt.Valid(sources.Loose()) && !rt.process
    modifies rt`log, rt`ledger
    ensures rt.Valid(sources.Loose()) && SameBooks(old(rt.ledger), rt.ledger)
    ensures rt.log
         == old(rt.log) + (if ok then [ImageWritten(sources.OwnedSource().value, sources.compact.Some?)] else [])
    ensures rt.reliable ==> ok
  {
    hide Runtime.Tracked, Table, PendingFor, PendingHeld, DriveOk;
    OwnedSourceIsAll(sources);
    ok := WriteFile(rt, sources.OwnedSource().value, sources.compact.Some?);
  }

  // Closes the chain. A source that cannot be closed moves into the empty
  // media session, so it is not lost.
  method Finish(rt: Runtime, sources: Sources, success: bool) returns (ok: bool)
    requires sources.Single() && rt.Valid(sources.Loose()) && LooseOk(rt, sources.Loose())
    modifies rt`media, rt`log, rt`ledger
    ensures rt.Valid({}) && rt.ledger.latches == old(rt.ledger).latches
    ensures || rt.media == NO_SESSION
            || (&& sources.OwnedSource().Some?
                && rt.media == Retained(NO_SESSION, sources.OwnedSource().value))
    ensures ok ==> success && rt.media == NO_SESSION
    ensures ok && sources.OwnedSource().Some? ==> rt.log == old(rt.log) + [Closed(sources.OwnedSource().value)]
    ensures old(rt.log) <= rt.log
    ensures rt.reliable && success ==> ok
  {
    hide Runtime.Tracked, Table, PendingFor, PendingHeld;
    ok := success;
    OwnedSourceIsAll(sources);
    if sources.OwnedSource().None? {
      return;
    }
    var h := sources.OwnedSource().value;
    assert {h} - {h} == {};
    CustodyWithout(rt.ledger.live, rt.media, rt.pending, {h}, h);
    CustodyOfSession(rt.ledger.live, rt.media, rt.pending, {h}, Retained(rt.media, h));
    var outcome := CloseSource(rt, h);
    if !outcome.Done? {
      if outcome.Kept? {
        rt.media := Retained(rt.media, h);
      }
      ok := false;
    }
  }

  // The disc was opened, its image written, and the disc closed.
  predicate PreservedAs(before: seq<Event>, after: seq<Event>, h: Handle, compact: bool) {
    && |after| >= |before| + 3 && before <= after && after[|before|] == Opened(h)
    && after[|after| - 2] == ImageWritten(h, compact) && after[|after| - 1] == Closed(h)
  }

  // The opened disc is converted when a compact image is wanted, and written.
  method ConvertAndWrite(rt: Runtime, devices: seq<Entry>, unlisted: bool, start: Sources, compact: bool)
      returns (ok: bool, sources: Sources, listed: seq<Entry>, failed: bool)
    requires start.Single() && start.whole.Some?
    requires rt.Valid(start.Loose()) && !rt.process && InventoryOk(devices, rt.pending)
    modifies rt`log, rt`ledger
    ensures sources.Single() && sources.Loose() == start.Loose() && sources.OwnedSource() == start.whole
    ensures rt.Valid(sources.Loose()) && InventoryOk(listed, rt.pending)
    ensures rt.ledger.latches == old(rt.ledger).latches && old(rt.log) <= rt.log
    ensures failed && !unlisted ==> forall k :: 0 <= k < |listed| ==> !listed[k].connected
    ensures ok ==>
              |rt.log| > |old(rt.log)| && rt.log[|rt.log| - 1] == ImageWritten(start.whole.value, compact)
    ensures rt.reliable ==> ok
  {
    hide Runtime.Tracked, Custody, DriveOk, InventoryOk, PlaybackOk;
    ok, sources, listed, failed := true, start, devices, unlisted;
    if compact {
      ok, sources := BuildCompactSource(rt, sources);
    }
    OwnedSourceIsAll(start);
    OwnedSourceIsAll(sources);
    assert sources.OwnedSource().Some? && sources.OwnedSource().value in start.Loose();
    if ok {
      ok, listed, failed := WriteImage(rt, devices, unlisted, sources);
    }
  }

  // The work on a free drive: open, convert, write, close.
  method Preserve(rt: Runtime, devices: seq<Entry>, unlisted: bool, compact: bool)
      returns (ok: bool, listed: seq<Entry>, failed: bool)
    requires rt.Valid({}) && LooseOk(rt, {}) && InventoryOk(devices, rt.pending)
    modifies rt`media, rt`acquired, rt`log, rt`ledger, rt`driveOpens
    ensures rt.Valid({}) && rt.ledger.latches == old(rt.ledger).latches && InventoryOk(listed, rt.pending)
    ensures ok ==> rt.media == NO_SESSION
    ensures rt.media == NO_SESSION || Idle(rt.media)
    ensures rt.driveOpens <= old(rt.driveOpens) + 1 && old(rt.log) <= rt.log
    ensures ok ==> PreservedAs(old(rt.log), rt.log, Handle(old(rt.acquired), Drive(rt.opticalDevice.id)), compact)
    ensures rt.reliable && rt.opticalDevice.id != "" ==> ok
    ensures failed && !unlisted ==> forall k :: 0 <= k < |listed| ==> !listed[k].connected
  {
    hide Runtime.Tracked, Custody, DriveOk, InventoryOk, PendingFor;
    var sources;
    ok, sources := InspectSource(rt);
    listed, failed := devices, unlisted;
    if ok {
      ok, sources, listed, failed := ConvertAndWrite(rt, devices, unlisted, sources, compact);
    }
    ok := Finish(rt, sources, ok);
  }

  // The whole preservation. Success leaves nothing open.
  method RunPreservation(rt: Runtime, loop: Loop, path: string, compact: bool) returns (ok: bool)
    requires Sound(rt, loop) && !PendingFor(rt.pending, rt.opticalDevice.id)
    modifies rt`media, rt`acquired, rt`preservationHold, rt`log, rt`ledger, rt`driveOpens
    modifies loop`phase, loop`devices, loop`inventoryFailed
    ensures Sound(rt, loop) && rt.driveOpens <= old(rt.driveOpens) + 1
    ensures old(rt.media).Owned() ==>
              !ok && rt.media == old(rt.media) && rt.ledger == old(rt.ledger) && rt.log == old(rt.log)
    ensures ok ==> PreservedAs(old(rt.log), rt.log, Handle(old(rt.acquired), Drive(rt.opticalDevice.id)), compact)
    ensures old(rt.log) <= rt.log
    ensures rt.reliable && !old(rt.media).Owned() && path != "" && rt.opticalDevice.id != "" ==> ok
    ensures !old(rt.media).Owned() ==> !rt.media.Owned() || Idle(rt.media)
    ensures ok ==> !rt.media.Owned() && rt.preservationHold && loop.phase.Preserved?
    ensures !ok ==> loop.devices == old(loop.devices) && loop.inventoryFailed == old(loop.inventoryFailed)
    ensures loop.inventoryFailed && !old(loop.inventoryFailed) ==>
              forall k :: 0 <= k < |loop.devices| ==> !loop.devices[k].connected
  {
    hide Runtime.Tracked, Custody, DriveOk, InventoryOk, PendingFor, PlaybackOk, PreservedAs;
    if rt.media.Owned() {
      return false;
    }
    if path == "" {
      return false;
    }
    loop.phase := Preserving;
    Cleared(rt);
    var shown, failed;
    ok, shown, failed := Preserve(rt, loop.devices, loop.inventoryFailed, compact);
    if !ok {
      return false;
    }
    loop.devices, loop.inventoryFailed := shown, failed;
    loop.phase := Preserved;
    rt.preservationHold := true;
  }
}
