// The drive list and the table of pending cleanups: src/app/runtime_drives.c.

module RuntimeDrives {
  import opened Bytes
  import opened SessionLedger
  import opened SessionState
  import opened RuntimePlatform
  import opened RuntimeMedia
  import opened OpticalMonitors
  import opened Phases

  // ---------------------------------------------------------------------
  // Marking the list

  function Described(devices: seq<Entry>, pending: seq<Pending>): (r: seq<Entry>)
    ensures |r| == |devices|
    ensures forall k :: 0 <= k < |r| ==>
              r[k] == devices[k].(cleanupPending := PendingFor(pending, devices[k].device.id))
  {
    seq(|devices|, k requires 0 <= k < |devices| =>
      devices[k].(cleanupPending := PendingFor(pending, devices[k].device.id)))
  }

  method Describe(rt: Runtime, devices: seq<Entry>) returns (described: seq<Entry>)
    ensures described == Described(devices, rt.pending)
    ensures |devices| <= MAX_DEVICES ==> InventoryOk(described, rt.pending)
  {
    hide Runtime.Tracked, PendingFor;
    described := devices;
    var index := 0;
    while index < |devices|
      invariant 0 <= index <= |devices| == |described|
      invariant forall k :: 0 <= k < index ==>
                  described[k] == devices[k].(cleanupPending := PendingFor(rt.pending, devices[k].device.id))
      invariant forall k :: index <= k < |devices| ==> described[k] == devices[k]
    {
      var entry := described[index];
      described := described[index := entry.(cleanupPending := PendingFor(rt.pending, entry.device.id))];
      index := index + 1;
    }
  }

  // ---------------------------------------------------------------------
  // Refreshing the list

  ghost predicate OwnedIds(pending: seq<Pending>, count: nat, excluded: seq<string>)
    requires count <= |pending|
  {
    forall i :: 0 <= i < count && pending[i].media.Owned() ==> pending[i].device.id in excluded
  }

  // The exclusions: the active device and every device owed restoration. They
  // fit the 33 places of the array.
  method Exclusions(rt: Runtime) returns (excluded: seq<string>, identified: bool)
    requires Table(rt.pending)
    ensures |excluded| <= 33 && identified
    ensures OwnedIds(rt.pending, |rt.pending|, excluded)
    ensures forall id :: id in excluded <==>
              id != "" && ((rt.media.Owned() && id == rt.opticalDevice.id) || PendingFor(rt.pending, id))
  {
    excluded, identified := [], true;
    if rt.media.Owned() && rt.opticalDevice.id != "" {
      excluded := [rt.opticalDevice.id];
    }
    var index := 0;
    while index < |rt.pending|
      invariant 0 <= index <= |rt.pending| && |excluded| <= index + 1 && identified
      invariant OwnedIds(rt.pending, index, excluded)
      invariant rt.media.Owned() && rt.opticalDevice.id != "" ==> rt.opticalDevice.id in excluded
      invariant forall id :: id in excluded ==>
                  id != "" && ((rt.media.Owned() && id == rt.opticalDevice.id) || PendingFor(rt.pending, id))
    {
      assert Parked(rt.pending[index]);
      if rt.pending[index].media.Owned() {
        if rt.pending[index].device.id == "" {
          identified := false;
        } else {
          excluded := excluded + [rt.pending[index].device.id];
        }
      }
      index := index + 1;
    }
    forall id | PendingFor(rt.pending, id) ensures id in excluded {
      var i :| 0 <= i < |rt.pending| && rt.pending[i].media.Owned() && rt.pending[i].device.id == id;
    }
  }

  lemma ExclusionsCover(pending: seq<Pending>, excluded: seq<string>, h: Handle)
    requires Table(pending) && OwnedIds(pending, |pending|, excluded) && h in PendingHeld(pending) && h.origin.Drive?
    ensures h.origin.id in excluded
  {
  }

  predicate Listed(devices: seq<Entry>, id: string) {
    exists k :: 0 <= k < |devices| && devices[k].device.id == id
  }

  // The inventory may query the media of connected drives, but of none that
  // the runtime still owns. `phase` is the phase of the snapshot that is
  // refreshed; a preservation under way shows its own.
  method Refresh(rt: Runtime, phase: Phase, devices: seq<Entry>, ghost loose: set<Handle>)
      returns (ok: bool, listed: seq<Entry>)
    requires rt.Valid(loose) && (loose != {} ==> phase.Preserving?) && InventoryOk(devices, rt.pending)
    modifies rt`log, rt`ledger
    ensures rt.Valid(loose) && rt.ledger.live == old(rt.ledger).live && rt.ledger.latches == old(rt.ledger).latches
    ensures InventoryOk(listed, rt.pending)
    ensures |rt.log| == |old(rt.log)| + 1 && old(rt.log) < rt.log && rt.log[|old(rt.log)|].Inventoried?
    ensures rt.log[|old(rt.log)|].enabled
         == (!rt.media.Owned() && !rt.process && !phase.Preserving? && !phase.Preparing?)
    ensures forall id :: id in rt.log[|old(rt.log)|].excluded <==>
              id != "" && ((rt.media.Owned() && id == rt.opticalDevice.id) || PendingFor(rt.pending, id))
    ensures ok == rt.log[|old(rt.log)|].found.Some?
    ensures ok ==> ListsFound(rt.log[|old(rt.log)|].found.value, listed)
    ensures rt.reliable ==> ok
    ensures !ok ==> listed == Disconnected(devices)
    ensures ok ==> forall i :: 0 <= i < |rt.pending| && rt.pending[i].media.Owned() ==>
                     Listed(listed, rt.pending[i].device.id) || |listed| == MAX_DEVICES
  {
    hide Runtime.Tracked, DriveOk, PendingFor, PendingHeld, Table, OwnedIds;
    var excluded, identified := Exclusions(rt);
    var enabled := !rt.media.Owned() && !rt.process && !phase.Preserving? && !phase.Preparing? && identified;
    if enabled {
      forall h | h in rt.ledger.live && h.origin.Drive? ensures h.origin.id in excluded {
        ExclusionsCover(rt.pending, excluded, h);
      }
    }
    var found;
    ok, found := ListDevices(rt, enabled, set id | id in excluded);
    if !ok {
      return false, Disconnected(devices);
    }
    listed := ListFound(rt, found);
  }

  function Disconnected(devices: seq<Entry>): (r: seq<Entry>)
    ensures |r| == |devices|
    ensures forall k :: 0 <= k < |r| ==> r[k] == devices[k].(connected := false)
  {
    seq(|devices|, k requires 0 <= k < |devices| => devices[k].(connected := false))
  }

  ghost predicate ListsOwners(pending: seq<Pending>, count: nat, devices: seq<Entry>)
    requires count <= |pending|
  {
    forall i :: 0 <= i < count && pending[i].media.Owned() ==>
      Listed(devices, pending[i].device.id) || |devices| == MAX_DEVICES
  }

  // The connected devices come first, and only they count as connected.
  predicate ListsFound(found: seq<Device>, listed: seq<Entry>) {
    var count := if |found| > MAX_DEVICES then MAX_DEVICES else |found|;
    && count <= |listed|
    && (forall k :: 0 <= k < count ==> listed[k].device == found[k] && listed[k].connected)
    && (forall k :: count <= k < |listed| ==> !listed[k].connected)
  }

  // The found devices, and behind them the owners of pending cleanups that
  // are no longer connected, as far as they fit.
  method ListFound(rt: Runtime, found: seq<Device>) returns (listed: seq<Entry>)
    requires Table(rt.pending)
    ensures InventoryOk(listed, rt.pending)
    ensures ListsOwners(rt.pending, |rt.pending|, listed)
    ensures ListsFound(found, listed)
  {
    hide Runtime.Tracked, PendingFor, Table;
    var count := if |found| > MAX_DEVICES then MAX_DEVICES else |found|;
    var devices := seq(count, k requires 0 <= k < count => Entry(found[k], true, false));
    var index := 0;
    while index < |rt.pending|
      invariant 0 <= index <= |rt.pending| && |devices| <= MAX_DEVICES
      invariant ListsFound(found, devices)
      invariant ListsOwners(rt.pending, index, devices)
    {
      var pending := rt.pending[index];
      ghost var before := devices;
      if pending.media.Owned() && !Listed(devices, pending.device.id) && |devices| < MAX_DEVICES {
        devices := devices + [Entry(pending.device, false, true)];
        assert devices[|before|].device.id == pending.device.id;
        forall id | Listed(before, id) ensures Listed(devices, id) {
          var k :| 0 <= k < |before| && before[k].device.id == id;
          assert devices[k].device.id == id;
        }
      }
      index := index + 1;
    }
    listed := Describe(rt, devices);
    forall id | Listed(devices, id) ensures Listed(listed, id) {
      var k :| 0 <= k < |devices| && devices[k].device.id == id;
      assert listed[k].device.id == id;
    }
  }

  // ---------------------------------------------------------------------
  // Resolving the drive

  predicate Eligible(e: Entry) {
    e.connected && e.device.accessible && e.device.supported && !e.cleanupPending
  }

  function Score(e: Entry, current: string): nat {
    (if e.device.mediaKnown then (if e.device.mediaPresent then 4 else 0) else 2)
    + (if e.device.id != "" && e.device.id == current then 1 else 0)
  }

  // The entry at `i` beats the ones before it and is not beaten after it.
  predicate Best(devices: seq<Entry>, current: string, i: nat)
    requires i < |devices|
  {
    && Eligible(devices[i])
    && (forall k :: 0 <= k < i && Eligible(devices[k]) ==> Score(devices[k], current) < Score(devices[i], current))
    && (forall k :: i < k < |devices| && Eligible(devices[k]) ==>
          Score(devices[k], current) <= Score(devices[i], current))
  }

  predicate HasMedium(device: Device) {
    device.mediaKnown && device.mediaPresent
  }

  predicate KnownEmpty(device: Device) {
    device.mediaKnown && !device.mediaPresent
  }

  // No usable drive that has a medium is passed over for one that may have
  // none, and none that may have one for an empty one. Among equals the
  // current drive is kept, and otherwise the first one taken.
  predicate Preferred(devices: seq<Entry>, current: string, i: nat)
    requires i < |devices|
  {
    var chosen := devices[i].device;
    forall k :: 0 <= k < |devices| && Eligible(devices[k]) ==>
      var other := devices[k].device;
      && (HasMedium(other) ==> HasMedium(chosen))
      && (KnownEmpty(chosen) ==> KnownEmpty(other))
      && ((HasMedium(other) <==> HasMedium(chosen)) && (KnownEmpty(other) <==> KnownEmpty(chosen)) ==>
            && (other.id == current != "" ==> chosen.id == current)
            && ((other.id == current) == (chosen.id == current) ==> i <= k))
  }

  lemma BestIsPreferred(devices: seq<Entry>, current: string, i: nat)
    requires i < |devices|
    ensures Best(devices, current, i) ==> Preferred(devices, current, i)
  {
  }

  predicate FirstListed(devices: seq<Entry>, id: string, i: nat)
    requires i < |devices|
  {
    devices[i].device.id == id && forall k :: 0 <= k < i ==> devices[k].device.id != id
  }

  // The first entry of the selected drive, or the best usable drive when none
  // is selected.
  method ResolveEntry(devices: seq<Entry>, selected: string, current: string) returns (best: Option<nat>)
    ensures best.Some? ==> best.value < |devices|
    ensures selected != "" ==>
              && (best.None? <==> !Listed(devices, selected))
              && (best.Some? ==> FirstListed(devices, selected, best.value))
    ensures selected == "" ==>
              && (best.Some? ==> Best(devices, current, best.value))
              && (best.None? ==> forall k :: 0 <= k < |devices| ==> !Eligible(devices[k]))
  {
    best := None;
    var bestScore := 0;
    var index := 0;
    while index < |devices|
      invariant 0 <= index <= |devices|
      invariant selected != "" ==> best.None? && forall k :: 0 <= k < index ==> devices[k].device.id != selected
      invariant selected == "" && best.None? ==> forall k :: 0 <= k < index ==> !Eligible(devices[k])
      invariant selected == "" && best.Some? ==>
                  && best.value < index && bestScore == Score(devices[best.value], current)
                  && Best(devices[..index], current, best.value)
    {
      var entry := devices[index];
      assert devices[..index + 1] == devices[..index] + [entry];
      if selected != "" {
        if entry.device.id == selected {
          return Some(index);
        }
      } else if Eligible(entry) {
        var score := Score(entry, current);
        if best.None? || score > bestScore {
          best := Some(index);
          bestScore := score;
        }
      }
      index := index + 1;
    }
    assert devices[..|devices|] == devices;
  }

  const NOT_SEEN: Presence := Presence(false, false, false)

  function PresenceOf(device: Device): Presence {
    Presence(true, device.mediaKnown, device.mediaPresent)
  }

  // The selected drive, or any if none is selected, is connected, supported,
  // accessible and not owed restoration.
  predicate DriveAvailable(devices: seq<Entry>, inventoryFailed: bool, selected: string) {
    && !inventoryFailed
    && exists i :: && 0 <= i < |devices| && devices[i].connected
                   && devices[i].device.supported && devices[i].device.accessible && !devices[i].cleanupPending
                   && (selected != "" ==> FirstListed(devices, selected, i))
  }

  // The drive that is resolved: the selected one as first listed, or one that
  // no better drive is passed over for.
  predicate ChosenDrive(devices: seq<Entry>, current: string, selected: string, device: Device) {
    exists i :: && 0 <= i < |devices| && devices[i].device == device
                && if selected != "" then FirstListed(devices, selected, i) else Preferred(devices, current, i)
  }

  // Makes the selected or best drive the current one. It fails for a drive
  // that is owed restoration, but not before that drive is the current one.
  // A drive that is resolved counts as present, and no other does.
  method Resolve(rt: Runtime, devices: seq<Entry>, inventoryFailed: bool, selected: string)
      returns (ok: bool, presence: Presence)
    requires rt.Valid({}) && InventoryOk(devices, rt.pending)
    modifies rt`opticalDevice, rt`driveKnown
    ensures rt.Valid({})
    ensures rt.media.Owned() ==> rt.opticalDevice == old(rt.opticalDevice) && ok == (rt.opticalDevice.id != "")
    ensures presence == if ok then Presence(true, rt.opticalDevice.mediaKnown, rt.opticalDevice.mediaPresent)
                        else Presence(false, false, false)
    ensures !rt.media.Owned() ==>
              && (ok <==> DriveAvailable(devices, inventoryFailed, selected))
              && (ok ==> ChosenDrive(devices, old(rt.opticalDevice.id), selected, rt.opticalDevice))
    ensures ok && !rt.media.Owned() ==>
              && !PendingFor(rt.pending, rt.opticalDevice.id)
              && rt.opticalDevice.supported && rt.opticalDevice.accessible
              && (selected != "" ==> rt.opticalDevice.id == selected)
    ensures rt.opticalDevice == old(rt.opticalDevice) || Listed(devices, rt.opticalDevice.id)
    ensures !rt.media.Owned() && !inventoryFailed && selected != "" ==>
              forall i :: 0 <= i < |devices| && FirstListed(devices, selected, i) && devices[i].connected ==>
                && rt.opticalDevice == devices[i].device
                && (PendingFor(rt.pending, selected) ==> !ok)
    ensures ok && !rt.media.Owned() && selected == "" ==>
              exists i :: && 0 <= i < |devices| && devices[i].device == rt.opticalDevice
                          && Best(devices, old(rt.opticalDevice.id), i)
                          && Preferred(devices, old(rt.opticalDevice.id), i)
  {
    hide Runtime.Tracked, PendingFor, PendingHeld, Table, Custody;
    if rt.media.Owned() {
      ok := rt.opticalDevice.id != "";
      return ok, if ok then PresenceOf(rt.opticalDevice) else NOT_SEEN;
    }
    if inventoryFailed {
      return false, NOT_SEEN;
    }
    var best := ResolveEntry(devices, selected, rt.opticalDevice.id);
    if best.None? || !devices[best.value].connected {
      return false, NOT_SEEN;
    }
    var entry := devices[best.value];
    BestIsPreferred(devices, rt.opticalDevice.id, best.value);
    rt.opticalDevice := entry.device;
    rt.driveKnown := entry.device.supported;
    if entry.cleanupPending {
      return false, NOT_SEEN;
    }
    if !entry.device.supported {
      return false, NOT_SEEN;
    }
    if !entry.device.accessible {
      return false, NOT_SEEN;
    }
    return true, PresenceOf(entry.device);
  }

  // ---------------------------------------------------------------------
  // Parking and retrying

  // The first slot that owns nothing, or the size of the table.
  function FreeSlot(pending: seq<Pending>): (i: nat)
    ensures i <= |pending|
    ensures i < |pending| ==> !pending[i].media.Owned()
    ensures forall k :: 0 <= k < i ==> pending[k].media.Owned()
  {
    if pending == [] || !pending[0].media.Owned() then 0 else 1 + FreeSlot(pending[1..])
  }

  lemma {:induction false} FreeSlotIs(pending: seq<Pending>, i: nat)
    requires i <= |pending| && (i < |pending| ==> !pending[i].media.Owned())
    requires forall k :: 0 <= k < i ==> pending[k].media.Owned()
    ensures FreeSlot(pending) == i
  {
  }

  // Whether the session that failed to close can be set aside.
  predicate CanRetain(device: Device, media: Session, pending: seq<Pending>) {
    device.id != "" && !media.image && !PendingFor(pending, device.id) && FreeSlot(pending) < |pending|
  }

  method RetainFailedCleanup(rt: Runtime) returns (ok: bool)
    requires rt.Valid({}) && !rt.process && !rt.media.open
    modifies rt`pending, rt`media
    ensures rt.Valid({})
    ensures ok == CanRetain(rt.opticalDevice, old(rt.media), old(rt.pending))
    ensures ok ==>
              && rt.media == NO_SESSION
              && rt.pending == old(rt.pending)[FreeSlot(old(rt.pending)) := Pending(rt.opticalDevice, old(rt.media))]
    ensures !ok ==> rt.media == old(rt.media) && rt.pending == old(rt.pending)
  {
    hide Runtime.Tracked, PendingFor, PendingHeld, Table;
    if rt.opticalDevice.id == "" || rt.media.image || PendingFor(rt.pending, rt.opticalDevice.id) {
      return false;
    }
    var index := 0;
    while index < |rt.pending|
      invariant 0 <= index <= |rt.pending|
      invariant forall k :: 0 <= k < index ==> rt.pending[k].media.Owned()
    {
      if !rt.pending[index].media.Owned() {
        FreeSlotIs(rt.pending, index);
        ParkingKeepsCustody(rt.ledger.live, rt.media, rt.pending, index, rt.opticalDevice);
        EmptyDriveOk(rt.opticalDevice, rt.pending[index := Pending(rt.opticalDevice, rt.media)]);
        rt.pending := rt.pending[index := Pending(rt.opticalDevice, rt.media)];
        rt.media := NO_SESSION;
        return true;
      }
      index := index + 1;
    }
    FreeSlotIs(rt.pending, index);
    return false;
  }

  lemma ParkingKeepsCustody(live: set<Handle>, media: Session, pending: seq<Pending>, i: nat, device: Device)
    requires Custody(live, media, pending, {}) && DriveOk(device, media, pending)
    requires i < |pending| && !pending[i].media.Owned() && !media.open
    requires device.id != "" && !PendingFor(pending, device.id)
    ensures Custody(live, NO_SESSION, pending[i := Pending(device, media)], {})
  {
    var p := Pending(device, media);
    if media.Owned() {
      TableAfterParking(pending, i, p);
    } else {
      UnownedSlot(pending, i, p);
    }
  }

  lemma UnownedSlot(pending: seq<Pending>, i: nat, p: Pending)
    requires Table(pending) && i < |pending| && !pending[i].media.Owned()
    requires Parked(p) && !p.media.Owned()
    ensures Table(pending[i := p]) && PendingHeld(pending[i := p]) == PendingHeld(pending)
  {
    var after := pending[i := p];
    forall h ensures h in PendingHeld(after) <==> h in PendingHeld(pending) {
      HeldByPending(pending, h);
      HeldByPending(after, h);
      if h in PendingHeld(pending) {
        var j :| 0 <= j < |pending| && h in Held(pending[j].media);
        assert after[j] == pending[j];
      }
      if h in PendingHeld(after) {
        var j :| 0 <= j < |after| && h in Held(after[j].media);
        assert pending[j] == after[j];
      }
    }
  }

  // Slots may have been emptied; every other slot is as it was.
  ghost predicate OnlyReleased(before: seq<Pending>, after: seq<Pending>) {
    && |after| == |before|
    && forall i :: 0 <= i < |after| ==>
         after[i].device == before[i].device && (after[i].media == before[i].media || after[i].media == NO_SESSION)
  }

  lemma ReleasedPendingFor(before: seq<Pending>, after: seq<Pending>, id: string)
    requires OnlyReleased(before, after)
    ensures PendingFor(after, id) ==> PendingFor(before, id)
  {
  }

  // One attempt to close the medium of a slot.
  method ClosePending(rt: Runtime, i: nat) returns (ok: bool)
    requires rt.Valid({}) && !rt.process && i < |rt.pending| && rt.pending[i].media.Owned()
    modifies rt`pending, rt`log, rt`ledger
    ensures rt.Valid({}) && rt.ledger.latches == old(rt.ledger).latches
    ensures OnlyReleased(old(rt.pending), rt.pending)
    ensures forall k :: 0 <= k < |rt.pending| && k != i ==> rt.pending[k] == old(rt.pending)[k]
    ensures ok ==> rt.pending[i].media == NO_SESSION
    ensures rt.log == old(rt.log) + CloseEvents(old(rt.pending)[i].media, rt.pending[i].media, ok)
    ensures rt.reliable ==> ok
  {
    hide Runtime.Tracked, PendingFor, PendingHeld, Table;
    ghost var before := rt.pending;
    ghost var live := rt.ledger.live;
    SlotIsLive(rt, i);
    var after;
    ok, after := CloseSession(rt, rt.pending[i].media);
    rt.pending := rt.pending[i := rt.pending[i].(media := after)];
    PendingClosed(rt.opticalDevice, rt.media, live, before, i, after);
  }

  lemma SlotIsLive(rt: Runtime, i: nat)
    requires rt.Valid({}) && i < |rt.pending|
    ensures var media := rt.pending[i].media;
            media.WellFormed() && !media.open && Held(media) <= rt.ledger.live
            && (media.Owned() ==> Held(media) == {media.Token().value})
  {
  }

  lemma PendingClosed(device: Device, media: Session, live: set<Handle>, pending: seq<Pending>, i: nat, after: Session)
    requires Custody(live, media, pending, {}) && DriveOk(device, media, pending)
    requires i < |pending| && pending[i].media.Owned() && ClosedTo(pending[i].media, after)
    ensures var now := pending[i := pending[i].(media := after)];
            && Custody(if after.Owned() then live else live - Held(pending[i].media), media, now, {})
            && DriveOk(device, media, now) && OnlyReleased(pending, now)
  {
    var now := pending[i := pending[i].(media := after)];
    assert Parked(pending[i]);
    if after.Owned() {
      assert now == pending;
    } else {
      TableAfterRelease(pending, i, after);
      ReleasedPendingFor(pending, now, device.id);
      forall h | h in Held(pending[i].media) ensures h in PendingHeld(pending) && h !in Held(media) {
        HeldByPending(pending, h);
      }
    }
  }

  // Retries every pending cleanup once, unless a session is open.
  method RetryCleanup(rt: Runtime)
    requires rt.Valid({})
    modifies rt`pending, rt`log, rt`ledger
    ensures rt.Valid({}) && rt.ledger.latches == old(rt.ledger).latches
    ensures OnlyReleased(old(rt.pending), rt.pending)
    ensures rt.media.open || rt.process ==>
              rt.pending == old(rt.pending) && rt.ledger == old(rt.ledger) && rt.log == old(rt.log)
    ensures rt.reliable && !rt.media.open && !rt.process ==>
              forall i :: 0 <= i < |rt.pending| ==> !rt.pending[i].media.Owned()
    ensures old(rt.log) <= rt.log
  {
    if rt.media.open || rt.process {
      return;
    }
    var index := 0;
    while index < |rt.pending|
      invariant 0 <= index <= |rt.pending| && rt.Valid({}) && rt.ledger.latches == old(rt.ledger).latches
      invariant OnlyReleased(old(rt.pending), rt.pending) && old(rt.log) <= rt.log
      invariant rt.reliable ==> forall i :: 0 <= i < index ==> !rt.pending[i].media.Owned()
    {
      if rt.pending[index].media.Owned() {
        var _ := ClosePending(rt, index);
      }
      index := index + 1;
    }
  }

  // Success means that no slot owns anything any more.
  method ClosePendingAll(rt: Runtime) returns (ok: bool)
    requires rt.Valid({}) && !rt.process
    modifies rt`pending, rt`log, rt`ledger
    ensures rt.Valid({}) && rt.ledger.latches == old(rt.ledger).latches
    ensures OnlyReleased(old(rt.pending), rt.pending)
    ensures ok <==> forall i :: 0 <= i < |rt.pending| ==> !rt.pending[i].media.Owned()
    ensures rt.reliable ==> ok
    ensures old(rt.log) <= rt.log
  {
    hide Runtime.Tracked, PendingFor, PendingHeld, Table, Custody, DriveOk;
    ok := true;
    var index := 0;
    while index < |rt.pending|
      invariant 0 <= index <= |rt.pending| && rt.Valid({}) && rt.ledger.latches == old(rt.ledger).latches
      invariant OnlyReleased(old(rt.pending), rt.pending) && old(rt.log) <= rt.log
      invariant rt.reliable ==> ok
      invariant ok <==> forall i :: 0 <= i < index ==> !rt.pending[i].media.Owned()
    {
      if rt.pending[index].media.Owned() {
        var closed := ClosePending(rt, index);
        if !closed && rt.pending[index].media.Owned() {
          ok := false;
        }
      }
      index := index + 1;
    }
  }

  // Nothing owned in the table means that no slot holds a handle.
  lemma NothingPending(pending: seq<Pending>)
    requires forall i :: 0 <= i < |pending| ==> !pending[i].media.Owned()
    ensures PendingHeld(pending) == {}
  {
  }

  // ---------------------------------------------------------------------
  // Selecting a drive

  predicate ValidId(id: string) {
    |id| < 1024 && '\n' !in id && '\r' !in id
  }

  // The session has to make way for the selected drive.
  predicate GivesWay(media: Session, device: Device, id: string, imageSource: bool) {
    media.Owned() && (!media.open || (id != "" && id != device.id) || imageSource)
  }

  // Closes the session for another drive, or sets it aside when it cannot be
  // closed. Nothing of it is lost either way.
  method Select(rt: Runtime, loop: Loop, id: string) returns (ok: bool)
    requires rt.Valid({}) && InventoryOk(loop.devices, rt.pending)
    modifies rt`media, rt`pending, rt`log, rt`ledger, loop`devices
    ensures rt.Valid({}) && InventoryOk(loop.devices, rt.pending) && rt.ledger.latches == old(rt.ledger).latches
    ensures rt.media == old(rt.media) || ClosedTo(old(rt.media), rt.media)
    ensures rt.process || !ValidId(id) || loop.phase.Preserving? ==>
              !ok && rt.media == old(rt.media) && rt.pending == old(rt.pending)
              && rt.ledger == old(rt.ledger) && rt.log == old(rt.log)
    ensures !rt.process && ValidId(id) && !loop.phase.Preserving? ==>
              if GivesWay(old(rt.media), rt.opticalDevice, id, loop.imageSource)
              then MadeWay(ok, rt.opticalDevice, old(rt.media), old(rt.pending), rt.pending, old(rt.log), rt.log)
              else ok && rt.log == old(rt.log)
    ensures !ok && !rt.process && ValidId(id) && !loop.phase.Preserving? ==> ClosedTo(old(rt.media), rt.media)
    ensures ok ==> loop.devices == Described(old(loop.devices), rt.pending)
    ensures !ok ==> loop.devices == old(loop.devices)
    ensures rt.reliable && !rt.process && ValidId(id) && !loop.phase.Preserving? ==> ok && rt.pending == old(rt.pending)
    ensures ok && GivesWay(old(rt.media), rt.opticalDevice, id, loop.imageSource) ==> rt.media == NO_SESSION
    ensures ok && !GivesWay(old(rt.media), rt.opticalDevice, id, loop.imageSource) ==>
              rt.media == old(rt.media) && rt.pending == old(rt.pending)
    ensures !ok ==> rt.pending == old(rt.pending)
    ensures || rt.pending == old(rt.pending)
            || (ok && SetAside(rt.opticalDevice, old(rt.media), old(rt.pending), rt.pending))
  {
    hide Runtime.Tracked, PendingFor, PendingHeld, Table, Custody, DriveOk, CanRetain, MadeWay, SetAside;
    if |id| >= 1024 || '\n' in id || '\r' in id || rt.process || loop.phase.Preserving? {
      return false;
    }
    if rt.media.Owned() && (!rt.media.open || (id != "" && id != rt.opticalDevice.id) || loop.imageSource) {
      ok := MakeWay(rt);
      if !ok {
        return;
      }
    }
    loop.devices := Describe(rt, loop.devices);
    return true;
  }

  method MakeWay(rt: Runtime) returns (ok: bool)
    requires rt.Valid({}) && rt.media.Owned() && !rt.process
    modifies rt`media, rt`pending, rt`log, rt`ledger
    ensures rt.Valid({}) && rt.ledger.latches == old(rt.ledger).latches
    ensures ClosedTo(old(rt.media), rt.media) && (ok ==> rt.media == NO_SESSION)
    ensures MadeWay(ok, rt.opticalDevice, old(rt.media), old(rt.pending), rt.pending, old(rt.log), rt.log)
    ensures !ok ==> rt.pending == old(rt.pending)
    ensures || rt.pending == old(rt.pending)
            || (ok && SetAside(rt.opticalDevice, old(rt.media), old(rt.pending), rt.pending))
    ensures rt.reliable ==> ok && rt.pending == old(rt.pending)
  {
    assert rt.media.WellFormed();
    hide Runtime.Tracked, PendingFor, PendingHeld, Table, Custody, DriveOk;
    ok := CloseMedia(rt, {});
    if !ok {
      ok := RetainFailedCleanup(rt);
    }
  }

  // The medium of the session was closed, or its close failed and the session
  // could be set aside.
  predicate MadeWay(ok: bool, device: Device, media: Session, before: seq<Pending>, after: seq<Pending>,
                    told: seq<Event>, now: seq<Event>) {
    && media.Token().Some? && |now| == |told| + 1 && told < now
    && match now[|told|]
       case Closed(h) => h == media.Token().value && ok && after == before
       case ClosedBadly(h) => h == media.Token().value && ok == CanRetain(device, NO_SESSION, before)
       case CloseFailed(h) =>
         h == media.Token().value && ok == CanRetain(device, media, before) && (ok ==> PendingFor(after, device.id))
       case _ => false
  }

  // The session went, still owning its medium or emptied by a failing close,
  // into the first free slot, under the device it was opened on.
  predicate SetAside(device: Device, media: Session, before: seq<Pending>, after: seq<Pending>) {
    var i := FreeSlot(before);
    && i < |before| && |after| == |before|
    && after[i].device == device && ClosedTo(media, after[i].media)
    && after == before[i := after[i]]
  }
}
