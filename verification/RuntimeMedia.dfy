// Media sessions: src/app/runtime_media.c. The handle of a medium moves from
// the source through its adapters into the export, and every failure on the
// way closes it or keeps it for another attempt.

module RuntimeMedia {
  import opened Bytes
  import opened SessionLedger
  import opened SessionState
  import opened RuntimePlatform

  datatype OpenState = Unidentified | Identified | MediaReady

  // ---------------------------------------------------------------------
  // Closing

  // What closing a session writes: one event for the medium it holds. `clean`
  // says whether the close reported no error.
  function CloseEvents(before: Session, after: Session, clean: bool): seq<Event> {
    if before.Token().None? then []
    else [if after.Owned() then CloseFailed(before.Token().value)
          else if clean then Closed(before.Token().value)
          else ClosedBadly(before.Token().value)]
  }

  // The ledger after a session went from `before` to `after` in a close.
  function AfterSessionClose(ledger: Ledger, before: Session, after: Session, clean: bool): Ledger {
    if before.Token().None? then ledger else Apply(ledger, CloseEvents(before, after, clean)[0])
  }

  // What closing leaves: nothing, or the same medium in a session that is no
  // longer open.
  predicate ClosedTo(before: Session, after: Session) {
    after == NO_SESSION || (after == before.(open := false) && after.Owned())
  }

  // Closes whatever the session holds. An error after the medium was consumed
  // leaves the session empty; an export is either closed or kept.
  method CloseSession(rt: Runtime, session: Session) returns (ok: bool, after: Session)
    requires rt.Tracked() && session.WellFormed() && rt.ledger.reader.None? && Held(session) <= rt.ledger.live
    modifies rt`log, rt`ledger
    ensures rt.Tracked() && ClosedTo(session, after)
    ensures rt.ledger == AfterSessionClose(old(rt.ledger), session, after, ok)
    ensures rt.log == old(rt.log) + CloseEvents(session, after, ok)
    ensures ok ==> after == NO_SESSION
    ensures session.exported.Some? ==> (ok <==> after == NO_SESSION)
    ensures rt.reliable ==> ok
  {
    assert session.Token().Some? ==> session.Token().value in Held(session);
    after := session.(open := false);
    ok := true;
    if after.exported.Some? {
      ok := CloseExport(rt, after.exported.value);
      if ok {
        after := after.(exported := None);
      }
    }
    if after.disc.Some? {
      var outcome := CloseSource(rt, after.disc.value);
      if !outcome.Done? {
        ok := false;
      }
      if !outcome.Kept? {
        after := after.(disc := None);
      }
    }
    if after.retained.Some? {
      var outcome := CloseSource(rt, after.retained.value);
      if !outcome.Done? {
        ok := false;
      }
      if !outcome.Kept? {
        after := after.(retained := None);
      }
    }
    if !after.Owned() {
      after := NO_SESSION;
    }
  }

  // Closing the session of the runtime.
  method CloseMedia(rt: Runtime, ghost loose: set<Handle>) returns (ok: bool)
    requires rt.Valid(loose) && !rt.process
    modifies rt`media, rt`log, rt`ledger
    ensures rt.Valid(loose) && ClosedTo(old(rt.media), rt.media)
    ensures rt.ledger == AfterSessionClose(old(rt.ledger), old(rt.media), rt.media, ok)
    ensures rt.log == old(rt.log) + CloseEvents(old(rt.media), rt.media, ok)
    ensures ok ==> rt.media == NO_SESSION
    ensures old(rt.media).exported.Some? ==> (ok <==> rt.media == NO_SESSION)
    ensures rt.reliable ==> ok
  {
    hide Runtime.Tracked, Table, PendingFor, PendingHeld;
    ghost var before := rt.media;
    var after;
    ok, after := CloseSession(rt, rt.media);
    CustodyOfSession(old(rt.ledger).live, before, rt.pending, loose, after);
    rt.media := after;
    assert after.Owned() ==> Held(after) == Held(before);
    assert loose - Held(after) == loose;
  }

  // ---------------------------------------------------------------------
  // Keeping a source that could not be closed

  // Refused when a source is already kept.
  function Retained(session: Session, h: Handle): Session {
    session.(retained := Some(h), open := false)
  }

  // The local variables of an open: the medium sits in one of them.
  datatype Chain = Chain(whole: Option<Handle>, partition: Option<Handle>, disc: Option<Handle>)
  {
    predicate Single() {
      && (whole.Some? ==> partition.None? && disc.None?)
      && (partition.Some? ==> disc.None?)
    }

    function Loose(): set<Handle> {
      (if whole.Some? then {whole.value} else {})
      + (if partition.Some? then {partition.value} else {})
      + (if disc.Some? then {disc.value} else {})
    }
  }

  // ---------------------------------------------------------------------
  // Opening a physical disc

  // Which emulator plays what.
  predicate PlayedBy(profile: Profile, backend: Backend) {
    || ((profile.Xgd1? || profile.XboxImage?) && backend == XemuBackend)
    || ((profile.Xgd2? || profile.Xgd3? || profile.Xbox360Image?) && backend == XeniaBackend)
    || ((profile.GameCube? || profile.Wii?) && backend == DolphinBackend)
  }

  // A medium was opened and recognised, and nothing else happened: `backend`
  // is the emulator for what it was recognised as.
  predicate OpenedFor(before: seq<Event>, after: seq<Event>, h: Handle, backend: Backend) {
    && |after| == |before| + 2 && before <= after && after[|before|] == Opened(h)
    && after[|before| + 1].Recognised? && after[|before| + 1].handle == h
    && PlayedBy(after[|before| + 1].profile, backend)
  }

  // The medium was recognised as one that only Xenia plays.
  predicate NeedsXenia(before: seq<Event>, after: seq<Event>, h: Handle) {
    && |after| >= |before| + 2
    && after[|before| + 1] in {Recognised(h, Xgd2), Recognised(h, Xgd3), Recognised(h, Xbox360Image)}
  }

  predicate SameBooks(before: Ledger, after: Ledger) {
    after.latches == before.latches && after.reader == before.reader
  }

  // From the opened source to a disc, by the profile of the medium.
  method BuildChain(rt: Runtime, h: Handle) returns (ok: bool, chain: Chain, backend: Backend)
    requires rt.Valid({h}) && !rt.process
    modifies rt`log, rt`ledger
    ensures chain.Single() && chain.Loose() <= {h} && rt.Valid(chain.Loose())
    ensures SameBooks(old(rt.ledger), rt.ledger)
    ensures ok ==> chain == Chain(None, None, Some(h))
    ensures old(rt.log) < rt.log && rt.log[|old(rt.log)|].Recognised? && rt.log[|old(rt.log)|].handle == h
    ensures ok ==> |rt.log| == |old(rt.log)| + 1 && PlayedBy(rt.log[|old(rt.log)|].profile, backend)
    ensures backend.XeniaBackend? <==> rt.log[|old(rt.log)|].profile in {Xgd2, Xgd3}
    ensures rt.reliable ==> ok
  {
    hide Runtime.Tracked, Custody, DriveOk;
    var profile := Recognise(rt, h);
    chain, backend := Chain(Some(h), None, None), NoBackend;
    match profile {
      case Xgd1 =>
        ok, chain := BuildFrom(rt, h, chain);
        backend := XemuBackend;
      case GameCube | Wii =>
        ok, chain := ReadHeader(rt, h);
        backend := DolphinBackend;
      case Xgd2 | Xgd3 =>
        ok, chain := BuildXbox360(rt, h);
        backend := XeniaBackend;
      case _ =>
        ok := false;
    }
  }

  method Recognise(rt: Runtime, h: Handle) returns (profile: Profile)
    requires rt.Valid({h})
    modifies rt`log, rt`ledger
    ensures rt.Valid({h}) && SameBooks(old(rt.ledger), rt.ledger)
    ensures rt.log == old(rt.log) + [Recognised(h, profile)]
    ensures profile in {Xgd1, Xgd2, Xgd3, GameCube, Wii, UnknownProfile}
    ensures rt.reliable ==> !profile.UnknownProfile?
  {
    hide Runtime.Tracked, Table, PendingFor, PendingHeld;
    profile := RecogniseDisc(rt, h);
  }

  // `from` holds the medium in its source or its partition.
  method BuildFrom(rt: Runtime, h: Handle, from: Chain) returns (ok: bool, chain: Chain)
    requires rt.Valid({h}) && !rt.process
    requires from == Chain(Some(h), None, None) || from == Chain(None, Some(h), None)
    modifies rt`log, rt`ledger
    ensures chain.Single() && chain.Loose() <= {h} && rt.Valid(chain.Loose())
    ensures SameBooks(old(rt.ledger), rt.ledger) && old(rt.log) <= rt.log
    ensures ok ==> chain == Chain(None, None, Some(h)) && rt.log == old(rt.log)
    ensures rt.reliable ==> ok
  {
    hide Runtime.Tracked, Table, PendingFor, PendingHeld;
    CustodyWithout(rt.ledger.live, rt.media, rt.pending, {h}, h);
    assert {h} - {h} == {};
    var outcome := BuildDisc(rt, h);
    match outcome {
      case Built => return true, Chain(None, None, Some(h));
      case Untouched => return false, from;
      case InDisc => return false, Chain(None, None, Some(h));
      case Gone => return false, Chain(None, None, None);
    }
  }

  // GameCube and Wii discs are recognised by a word of their header.
  method ReadHeader(rt: Runtime, h: Handle) returns (ok: bool, chain: Chain)
    ensures chain.Single() && chain.Loose() == {h}
    ensures ok ==> chain == Chain(None, None, Some(h))
    ensures rt.reliable ==> ok
  {
    var moved := Attempted(rt);
    if !moved {
      return false, Chain(Some(h), None, None);
    }
    ok := Attempted(rt);
    return ok, Chain(None, None, Some(h));
  }

  method BuildXbox360(rt: Runtime, h: Handle) returns (ok: bool, chain: Chain)
    requires rt.Valid({h}) && !rt.process
    modifies rt`log, rt`ledger
    ensures chain.Single() && chain.Loose() <= {h} && rt.Valid(chain.Loose())
    ensures SameBooks(old(rt.ledger), rt.ledger) && old(rt.log) <= rt.log
    ensures ok ==> chain == Chain(None, None, Some(h)) && rt.log == old(rt.log)
    ensures rt.reliable ==> ok
  {
    hide Runtime.Tracked, Custody, DriveOk, PlaybackOk;
    var partitioned := Attempted(rt);
    if !partitioned {
      return false, Chain(Some(h), None, None);
    }
    ok, chain := BuildFrom(rt, h, Chain(None, Some(h), None));
    if ok {
      ok := Attempted(rt);
    }
  }

  // Closes what a failed open still holds locally. What cannot be closed
  // moves into the session.
  method Unwind(rt: Runtime, chain: Chain) returns (clean: bool)
    requires chain.Single() && rt.Valid(chain.Loose()) && rt.media == NO_SESSION
    requires forall h :: h in chain.Loose() && h.origin.Drive? ==>
               && h.origin == Drive(rt.opticalDevice.id) && rt.opticalDevice.id != ""
               && !PendingFor(rt.pending, rt.opticalDevice.id)
    modifies rt`media, rt`log, rt`ledger
    ensures rt.Valid({}) && !rt.media.open && rt.media.exported.None? && !rt.media.image
    ensures SameBooks(old(rt.ledger), rt.ledger)
    ensures Held(rt.media) <= chain.Loose() && (clean ==> rt.media == NO_SESSION)
    ensures chain.Loose() == {} ==> clean && rt.ledger == old(rt.ledger)
    ensures old(rt.log) <= rt.log
  {
    hide Runtime.Tracked, Table, PendingFor, PendingHeld;
    if chain.Loose() == {} {
      assert chain == Chain(None, None, None);
      return true;
    }
    var h := if chain.disc.Some? then chain.disc.value
             else if chain.whole.Some? then chain.whole.value else chain.partition.value;
    assert chain.Loose() == {h};
    ghost var live := rt.ledger.live;
    var outcome := CloseSource(rt, h);
    if outcome.Kept? {
      if chain.disc.Some? {
        rt.media := rt.media.(disc := Some(h), open := false);
      } else {
        rt.media := Retained(rt.media, h);
      }
      CustodyOfSession(live, NO_SESSION, rt.pending, {h}, rt.media);
    } else {
      CustodyWithout(live, rt.media, rt.pending, {h}, h);
    }
    assert {h} - {h} == {};
    return outcome.Done?;
  }

  // A session that waits for its medium to be closed, or holds none.
  predicate Idle(session: Session) {
    session.WellFormed() && !session.open && session.exported.None? && !session.image
  }

  // Opens the medium of the current device and exports it.
  method OpenPhysical(rt: Runtime) returns (ok: bool, state: OpenState, code: Code)
    requires rt.Valid({})
    requires !rt.media.Owned() ==> !PendingFor(rt.pending, rt.opticalDevice.id)
    modifies rt`media, rt`acquired, rt`log, rt`ledger, rt`driveOpens
    ensures rt.Valid({}) && rt.ledger.latches == old(rt.ledger).latches
    ensures old(rt.media).Owned() ==>
              !ok && rt.media == old(rt.media) && rt.ledger == old(rt.ledger) && rt.log == old(rt.log)
    ensures rt.driveOpens
         == old(rt.driveOpens) + (if old(rt.media).Owned() || rt.opticalDevice.id == "" then 0 else 1)
    ensures !old(rt.media).Owned() && !ok ==> Idle(rt.media)
    ensures ok <==> state.MediaReady?
    ensures ok ==>
              && rt.media.open && !rt.media.image && rt.media.exported.Some?
              && rt.media.exported.value == Handle(old(rt.acquired), Drive(rt.opticalDevice.id))
              && OpenedFor(old(rt.log), rt.log, rt.media.exported.value, rt.media.backend)
              && (rt.media.backend.XeniaBackend? ==> rt.xeniaExports)
    ensures old(rt.log) <= rt.log
    ensures rt.reliable && !old(rt.media).Owned() && rt.opticalDevice.id != "" && !ok ==>
              !rt.xeniaExports
              && NeedsXenia(old(rt.log), rt.log, Handle(old(rt.acquired), Drive(rt.opticalDevice.id)))
  {
    hide Runtime.Tracked, Table, PendingFor, PendingHeld, DriveOk;
    code := *;
    if rt.media.Owned() {
      return false, Unidentified, code;
    }
    NotOwned(rt);
    rt.media := NO_SESSION;
    EmptyDriveOk(rt.opticalDevice, rt.pending);
    NoDriveLive(rt);
    ghost var before := rt.ledger;
    var wasOpened, whole := OpenDrive(rt, rt.opticalDevice);
    if whole.None? {
      return false, Unidentified, code;
    }
    var h := whole.value;
    CustodyWithNew(before.live, rt.media, rt.pending, {}, h);
    assert {} + {h} == {h};
    if !wasOpened {
      RetainOpened(rt, h);
      return false, Unidentified, code;
    }
    ok, state := ExportOpened(rt, h);
  }

  lemma NotOwned(rt: Runtime)
    requires rt.Valid({}) && !rt.media.Owned()
    ensures !rt.process && rt.ledger.reader.None? && Held(rt.media) == {}
    ensures Custody(rt.ledger.live, NO_SESSION, rt.pending, {})
  {
    CustodyOfSession(rt.ledger.live, rt.media, rt.pending, {}, NO_SESSION);
  }

  lemma EmptyDriveOk(device: Device, pending: seq<Pending>)
    ensures DriveOk(device, NO_SESSION, pending)
  {
  }

  // With an empty session and no pending cleanup for the device, no live
  // handle is of that device.
  lemma NoDriveLive(rt: Runtime)
    requires rt.Valid({}) && rt.media == NO_SESSION && !PendingFor(rt.pending, rt.opticalDevice.id)
    ensures rt.opticalDevice.id != "" ==> forall k :: k in rt.ledger.live ==> k.origin != Drive(rt.opticalDevice.id)
  {
    if rt.opticalDevice.id != "" {
      forall k | k in rt.ledger.live ensures k.origin != Drive(rt.opticalDevice.id) {
        assert k in PendingHeld(rt.pending);
        HeldByPending(rt.pending, k);
        var i :| 0 <= i < |rt.pending| && k in Held(rt.pending[i].media);
        assert rt.pending[i].media.Owned();
      }
    }
  }

  // The opening failed but left its source open.
  method RetainOpened(rt: Runtime, h: Handle)
    requires rt.Valid({h}) && rt.media == NO_SESSION
    requires h.origin == Drive(rt.opticalDevice.id) && rt.opticalDevice.id != ""
    requires !PendingFor(rt.pending, rt.opticalDevice.id)
    modifies rt`media
    ensures rt.Valid({}) && rt.media == Retained(NO_SESSION, h)
  {
    hide Runtime.Tracked, Table, PendingFor, PendingHeld;
    CustodyOfSession(rt.ledger.live, rt.media, rt.pending, {h}, Retained(NO_SESSION, h));
    rt.media := Retained(rt.media, h);
    assert {h} - {h} == {};
  }

  method ExportOpened(rt: Runtime, h: Handle) returns (ok: bool, state: OpenState)
    requires rt.Valid({h}) && rt.media == NO_SESSION
    requires h.origin == Drive(rt.opticalDevice.id) && rt.opticalDevice.id != ""
    requires !PendingFor(rt.pending, rt.opticalDevice.id)
    modifies rt`media, rt`log, rt`ledger
    ensures rt.Valid({}) && rt.ledger.latches == old(rt.ledger).latches
    ensures ok <==> state.MediaReady?
    ensures !ok ==> Idle(rt.media)
    ensures old(rt.log) < rt.log && rt.log[|old(rt.log)|].Recognised? && rt.log[|old(rt.log)|].handle == h
    ensures ok ==>
              && rt.media.open && !rt.media.image && rt.media.exported == Some(h)
              && |rt.log| == |old(rt.log)| + 1 && PlayedBy(rt.log[|old(rt.log)|].profile, rt.media.backend)
              && (rt.media.backend.XeniaBackend? ==> rt.xeniaExports)
    ensures rt.reliable && !ok ==> !rt.xeniaExports && rt.log[|old(rt.log)|].profile in {Xgd2, Xgd3}
  {
    hide Runtime.Tracked, Table, PendingFor, PendingHeld;
    var built, chain, backend := BuildChain(rt, h);
    state := if built then Identified else Unidentified;
    var preflight := Attempted(rt);
    var exported := Attempted(rt);
    var targetUsable := rt.xeniaExports && preflight;
    if built && (!backend.XeniaBackend? || targetUsable) && exported {
      var media := rt.media.(exported := Some(h), backend := backend, image := false, open := true);
      CustodyOfSession(rt.ledger.live, rt.media, rt.pending, {h}, media);
      rt.media := media;
      assert {h} - {h} == {};
      return true, MediaReady;
    }
    var clean := Unwind(rt, chain);
    if rt.media.Owned() {
      var _ := CloseMedia(rt, {});
    }
    ok := false;
  }

  // ---------------------------------------------------------------------
  // Opening a disc image

  const PATH_CAPACITY: nat := 4096

  method OpenImage(rt: Runtime, path: string) returns (ok: bool, state: OpenState, code: Code)
    requires rt.Valid({})
    modifies rt`media, rt`acquired, rt`log, rt`ledger, rt`driveOpens
    ensures rt.Valid({}) && rt.ledger.latches == old(rt.ledger).latches && rt.driveOpens == old(rt.driveOpens)
    ensures old(rt.media).Owned() ==>
              !ok && rt.media == old(rt.media) && rt.ledger == old(rt.ledger) && rt.log == old(rt.log)
    ensures !old(rt.media).Owned() && !ok ==> Idle(rt.media)
    ensures ok <==> state.MediaReady?
    ensures ok ==>
              var h := Handle(old(rt.acquired), Image);
              && 0 < |path| < 4096 && OpenedFor(old(rt.log), rt.log, h, rt.media.backend)
              && (|| rt.media == Session(true, Some(h), None, None, true, XemuBackend, "")
                  || (rt.media == Session(true, None, Some(h), None, true, XeniaBackend, path)
                      && (rt.xeniaExports || rt.xeniaImages)))
    ensures old(rt.log) <= rt.log
    ensures rt.reliable && !old(rt.media).Owned() && 0 < |path| < 4096 && !ok ==>
              !rt.xeniaExports && !rt.xeniaImages
              && NeedsXenia(old(rt.log), rt.log, Handle(old(rt.acquired), Image))
  {
    hide Runtime.Tracked, Table, PendingFor, PendingHeld, DriveOk;
    code := *;
    if path == "" || rt.media.Owned() {
      if !rt.media.Owned() {
        Cleared(rt);
      }
      return false, Unidentified, code;
    }
    Cleared(rt);
    if |path| >= PATH_CAPACITY {
      return false, Unidentified, code;
    }
    ghost var before := rt.ledger;
    var disc := OpenImageFile(rt);
    if disc.None? {
      return false, Unidentified, code;
    }
    CustodyWithNew(before.live, rt.media, rt.pending, {}, disc.value);
    assert {} + {disc.value} == {disc.value};
    ok, state := ExportImage(rt, disc.value, path);
  }

  // An unowned session is as good as an empty one.
  method Cleared(rt: Runtime)
    requires rt.Valid({}) && !rt.media.Owned()
    modifies rt`media
    ensures rt.Valid({}) && rt.media == NO_SESSION
  {
    NotOwned(rt);
    EmptyDriveOk(rt.opticalDevice, rt.pending);
    rt.media := NO_SESSION;
  }

  method RecogniseLoose(rt: Runtime, h: Handle) returns (profile: Profile)
    requires rt.Valid({h})
    modifies rt`log, rt`ledger
    ensures rt.Valid({h}) && SameBooks(old(rt.ledger), rt.ledger) && rt.ledger.live == old(rt.ledger).live
    ensures rt.log == old(rt.log) + [Recognised(h, profile)]
    ensures profile in {XboxImage, Xbox360Image, UnknownImage}
    ensures rt.reliable ==> !profile.UnknownImage?
  {
    hide Runtime.Tracked, Table, PendingFor, PendingHeld;
    profile := RecogniseImage(rt, h);
  }

  method ExportImage(rt: Runtime, h: Handle, path: string) returns (ok: bool, state: OpenState)
    requires rt.Valid({h}) && rt.media == NO_SESSION && h.origin.Image?
    modifies rt`media, rt`log, rt`ledger
    ensures rt.Valid({}) && rt.ledger.latches == old(rt.ledger).latches
    ensures ok <==> state.MediaReady?
    ensures !ok ==> Idle(rt.media)
    ensures old(rt.log) < rt.log && rt.log[|old(rt.log)|].Recognised? && rt.log[|old(rt.log)|].handle == h
    ensures ok ==>
              && |rt.log| == |old(rt.log)| + 1 && PlayedBy(rt.log[|old(rt.log)|].profile, rt.media.backend)
              && (|| rt.media == Session(true, Some(h), None, None, true, XemuBackend, "")
                  || (rt.media == Session(true, None, Some(h), None, true, XeniaBackend, path)
                      && (rt.xeniaExports || rt.xeniaImages)))
    ensures rt.reliable && !ok ==>
              !rt.xeniaExports && !rt.xeniaImages && rt.log[|old(rt.log)|].profile.Xbox360Image?
  {
    hide Runtime.Tracked, Table, PendingFor, PendingHeld;
    var platform := RecogniseLoose(rt, h);
    var policyFound := Attempted(rt);
    var preflight := Attempted(rt);
    var exported := Attempted(rt);
    var targetUsable := (rt.xeniaExports || rt.xeniaImages) && preflight;
    ghost var live := rt.ledger.live;
    assert {h} - {h} == {};
    if platform.XboxImage? && exported {
      var media := rt.media.(exported := Some(h), backend := XemuBackend, image := true, open := true);
      CustodyOfSession(live, rt.media, rt.pending, {h}, media);
      rt.media := media;
      return true, MediaReady;
    }
    if platform.Xbox360Image? && policyFound && targetUsable {
      var media := rt.media.(disc := Some(h), imagePath := path, backend := XeniaBackend, image := true, open := true);
      CustodyOfSession(live, rt.media, rt.pending, {h}, media);
      rt.media := media;
      return true, MediaReady;
    }
    state := if platform.XboxImage? || (platform.Xbox360Image? && policyFound) then Identified else Unidentified;
    var clean := Unwind(rt, Chain(None, None, Some(h)));
    if rt.media.Owned() {
      var _ := CloseMedia(rt, {});
    }
    ok := false;
  }

  // ---------------------------------------------------------------------
  // The launch target of Xenia

  datatype Target = NoTarget | ImageTarget(path: string) | ExportTarget(handle: Handle)

  // The open session is one that this system can play: Xenia needs an export,
  // or the image file behind a validated disc.
  predicate Playable(rt: Runtime)
    reads rt`media
  {
    && rt.media.open
    && (rt.media.backend.XeniaBackend? ==>
          rt.xeniaExports || (rt.media.disc.Some? && rt.xeniaImages && rt.media.imagePath != ""))
  }

  // The validated disc of an image may move into an export; nothing else
  // changes owner, whatever fails.
  method PrepareXeniaTarget(rt: Runtime) returns (ok: bool, target: Target)
    requires rt.Settled({}) && !rt.process
    modifies rt`media
    ensures rt.Settled({})
    ensures rt.media == old(rt.media)
         || (&& old(rt.media).open && old(rt.media).disc.Some? && rt.xeniaExports
             && rt.media == old(rt.media).(disc := None, exported := old(rt.media).disc))
    ensures ok <==> !target.NoTarget?
    ensures target.ImageTarget? ==>
              && rt.media == old(rt.media) && rt.media.image && target.path == rt.media.imagePath != ""
              && !rt.xeniaExports && rt.xeniaImages
    ensures target.ExportTarget? ==> rt.media.exported == Some(target.handle) && rt.xeniaExports
    ensures ok ==> rt.media.open && rt.media.backend.XeniaBackend? && rt.media.Token().Some?
    ensures ok ==> target.ExportTarget? || rt.media.disc.Some?
    ensures rt.reliable && old(rt.media).backend.XeniaBackend? && old(Playable(rt)) ==> ok
  {
    assert rt.media.WellFormed();
    hide Runtime.Tracked, Table, PendingFor, PendingHeld, Custody;
    if !rt.media.open || !rt.media.backend.XeniaBackend? {
      return false, NoTarget;
    }
    var preflight := Attempted(rt);
    if rt.media.disc.Some? {
      var discUnchanged := Attempted(rt);
      if !discUnchanged {
        return false, NoTarget;
      }
      if rt.xeniaExports {
        var exported := Attempted(rt);
        if !preflight || !exported {
          return false, NoTarget;
        }
        MoveDiscToExport(rt);
      } else if rt.xeniaImages && rt.media.image && rt.media.imagePath != "" {
        if !preflight {
          return false, NoTarget;
        }
        return true, ImageTarget(rt.media.imagePath);
      } else {
        return false, NoTarget;
      }
    }
    var inspected := Attempted(rt);
    if !rt.xeniaExports || rt.media.exported.None? || !preflight || !inspected {
      return false, NoTarget;
    }
    return true, ExportTarget(rt.media.exported.value);
  }

  method MoveDiscToExport(rt: Runtime)
    requires rt.Settled({}) && !rt.process && rt.media.disc.Some?
    modifies rt`media
    ensures rt.Settled({}) && rt.media == old(rt.media).(disc := None, exported := old(rt.media).disc)
  {
    hide Runtime.Tracked, Table, PendingFor, PendingHeld;
    var media := rt.media.(disc := None, exported := rt.media.disc);
    assert media.Token() == rt.media.Token() && rt.media.WellFormed();
    CustodyOfSession(rt.ledger.live, rt.media, rt.pending, {}, media);
    assert rt.ledger.live - (Held(rt.media) - Held(media)) == rt.ledger.live;
    rt.media := media;
  }
}
