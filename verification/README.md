# Verification of the gdox runtime

This project models the application runtime of gdox, the program that plays a
physical disc or a disc image in an emulator, and some of the self-contained
algorithms around it, and proves properties of them with Dafny 4.11.
`dafny verify dfyconfig.toml` checks everything.

The session runtime (`SessionLedger`, `SessionState`, `Runtime*`). One worker
thread owns drive handles. A handle moves between a source, adapters, a disc,
an export, a slot kept for another attempt and a table of 32 pending cleanups;
at most one emulator reads from it; every close can fail. `Runtime` and `Loop`
hold the fields of the C structures, and each C function is a method with the
same branches. What the methods do to the outside world is logged as events.
Every event has a rule, each method is proved to respect it, and the theorems
in `SessionLedger` speak about every log that respects the rules, and so about
every run: no medium is touched under a running emulator, no handle is lost or
closed twice, a drive owed restoration is not reopened, and an eject request is
completed only for the exact medium it was made for. `Valid` and `Sound` are
the invariants behind this. Drives, sources, exports and emulators are the
methods of `RuntimePlatform`, which return any outcome that the headers allow.

What the runtime does is stated on the log and on a `View` of the state.
`RuntimeEffects` says for every kind of request and every state what it does,
and `RuntimeCycles` composes that with the drive loop, the cleanup and the watch
into a relation that every cycle satisfies; `RunCycles` and `RunWorker` are
proved to be runs of it. Everything is said of runs in which anything may fail;
where an operation may end by asking for attention, a further clause says that
it does not in a reliable run, in which every call outside succeeds. Explicit
ejects and attempts to open a drive are tied to requests and to the history of
the monitor; the log misses none of either (`EveryEventCounts`).

The settings and setup protocol (`SettingsProtocol`, `SettingsThreads`). Every
region under the mutex is one atomic step on `Shared`; `SharedRuntime` performs
the same steps on fields. `SettingsThreads` interleaves the user interface, the
worker and the write of the settings file in any order. Locking is taken to
succeed. A failed write keeps the old file.

The request queue (`RuntimeCommands`), the two debouncing monitors
(`OpticalMonitor`, `PhysicalMonitor`), the read-ahead window of the QEMU block
driver (`ReadAhead`), the Mach-O UUID patch (`MachO`), the canonical source
tree (`SourceTree`), the glibc version check (`ElfVersions`), the archive member
tracker (`ArchiveMembers`) and the settings file (`Preferences`) are each proved
against a plain specification. What the parsers among them read is fixed by
files written from their parts: `MachOImages`, `ElfArtifacts`, and
`PreferencesFormat`, which also says exactly which texts are accepted.

Where the code does not keep what one would expect, a lemma says so exactly:

- A drive chosen by the user is written without marking the settings dirty. A
  failed write of it is not retried, not even by the final flush, until the
  next edit or selection: `ChosenDriveCanStayUnsaved`, `CleanIsNotWritten`.
  The choice is stored exactly when its own write succeeds or it chose nothing
  new: `SelectionIsStoredWhenWritten`, and over runs `CleanMeansStored`.
- The label of a drive is copied from the inventory without a check, and a
  settings file with a carriage return inside a value is loaded:
  `LabelCanMakeSettingsUnsavable`, `SomeLoadedSettingsCannotBeSaved`. Every save
  then fails, whatever else is edited, until that very text is replaced:
  `UnsavableIsNotStored`, `EditRepairs`. `LoadedIsSavableWithoutReturns` says for
  exactly which files this happens, and `SavableExactlyWithPlainTexts` after
  exactly which runs.
- Resolving makes a drive that is owed restoration the current one before it is
  refused (`Resolve`), and an explicit eject does not look at the pending table:
  `EjectOwedDrive` for a run in which it meets an open medium, and
  `EjectPhysicalDisc` for exactly when.
- Taking a setup request out of the middle of the queue can leave two equal
  requests side by side: `EqualNeighboursCanRemain`. It does so exactly when it
  stood between them: `NeighboursStep`, and over runs
  `NeighboursDifferUnlessJoined`.
- The check of component paths accepts a single dot, which has no parts to
  reject, and nothing else that is not a normal relative path: `AcceptedPaths`,
  `DotTreeHasAStream`.
- Python refuses to read more than 4300 digits as a number, with an error that
  the glibc check does not catch: `WalkOverflows` for exactly when, and
  `SmallVersionCanBeOverlong`.
- A resolved drive is always present, so the branch of
  `observe_available_media` for a resolved but absent drive is dead: `Resolve`.
- `destroy_owned_process` never clears the owner for Dolphin. That is sound
  because a successful Dolphin stop has emptied the slot: `StopDolphin`.

## Model

| member | source | states |
|---|---|---|
| SessionLedger.NothingTouchesMediaUnderAnEmulator | src/app/runtime.c:333-384 | From the launch of an emulator until its process is gone no medium is opened or closed, not even in vain, no second emulator starts, nothing is ejected and the inventory sends no media command, in every run the runtime can log. |
| SessionLedger.ReaderUntilReaped | src/app/runtime_playback.c:123-372 | Between a launch and its end the emulator keeps reading the handle it was launched on. |
| SessionLedger.LiveIsOpenedNotClosed | src/app/runtime_media.c:682-722 | A handle is live exactly when it was opened and no close has consumed it, with or without an error. |
| SessionLedger.OpenedAndClosedOnce | src/app/runtime_media.c:57-78 | No handle is opened twice and none is closed twice, whatever failed in between. |
| SessionLedger.DriveIsReleasedBetweenOpens | src/app/runtime_drives.c:227-234 | Two opens of one drive have the close of the first between them, so a drive owed restoration is never reopened. |
| SessionLedger.InventorySparesOwnedDrives | src/app/runtime_drives.c:78-98 | An inventory that may send media commands excludes every drive with an open handle. |
| SessionLedger.OnlyRequestedMediaAreEjected | src/app/runtime_physical.c:88-202 | A completed eject request was latched earlier from an observation of the same handle and generation; the last two events before it are a look that shows the medium present, asking to be ejected and of that generation, made while no emulator ran, and the close of that handle; the drive is the drive of that handle. |
| SessionLedger.EjectedDriveIsReleased | src/app/runtime_physical.c:105-156 | When an eject request is completed the drive has no open handle. |
| SessionLedger.LiveDrivesDiffer | src/app/runtime_drives.c:13-25 | No two open handles are of the same drive. |
| SessionLedger.LatchWasSeen | src/app/runtime_physical.c:270-276 | Every latched request was read off the medium of the same handle by the event before the latch. |
| SessionState.TableAfterParking | src/app/runtime_drives.c:260-268 | Filling a free slot with a medium of a device not yet owed keeps the table sound and adds exactly that medium. |
| SessionState.TableAfterRelease | src/app/runtime_drives.c:334-345 | Emptying a slot keeps the table sound and removes exactly its medium. |
| SessionState.Runtime.Record | src/app/runtime.c:333-384 | Every event of the runtime obeys the rule for it at the moment it happens, so the log stays legal. |
| RuntimePlatform.CloseSource | include/gdox/source.h:142-144 | A close finishes, fails after consuming the handle, or leaves it open for another attempt. |
| RuntimePlatform.CloseExport | include/gdox/nbd.h:90-95 | A failed close keeps the export. |
| RuntimePlatform.OpenDrive | src/platform/optical_devices.c:244-272 | Without a valid device nothing is opened; a failed open may leave the source open; every attempt is counted. |
| RuntimePlatform.BuildDisc | include/gdox/live.h:41-57 | A failed builder leaves the source untouched, gone, or in a disc that is still to be closed. |
| RuntimePlatform.ObserveExport | src/platform/nbd_tcp.c:282-295 | Each look is logged with what it showed or that it failed; a failed one reads as unknown; file-backed media never ask to be ejected. |
| RuntimePlatform.LaunchEmulator | include/gdox/dolphin.h:17-20 | A failed launch may leave a process that has to be stopped before the medium is closed. |
| RuntimeMedia.CloseSession | src/app/runtime_media.c:682-722 | Writes one event, which says whether the medium was closed, closed with an error, or kept; leaves either nothing or the same medium in a session that is no longer open; succeeds in a reliable run. |
| RuntimeMedia.CloseMedia | src/app/runtime_media.c:682-722 | The same for the session of the runtime, with every other handle where it was. |
| RuntimeMedia.BuildChain | src/app/runtime_media.c:353-415 | The emulator is the one for the recognised profile; whatever the profile and wherever the building fails, the medium is in exactly one local variable or closed. |
| RuntimeMedia.BuildFrom | include/gdox/x360.h:84-90 | Building from the whole source or a partition moves the medium into a disc, leaves it, or closes it. |
| RuntimeMedia.BuildXbox360 | src/app/runtime_media.c:259-306 | The partition, the disc and the policy of an Xbox 360 medium: the medium keeps one place on every failure. |
| RuntimeMedia.Unwind | src/app/runtime_media.c:442-484 | What a failed open still holds is closed or ends up in the session; an already moved medium is not touched. |
| RuntimeMedia.OpenPhysical | src/app/runtime_media.c:308-489 | Success exports a new handle of the current device for the emulator of the recognised profile, and nothing else happened; a reliable run fails only on an Xbox 360 disc that this system cannot export; every failure leaves no open session and every handle owned; an owned session is refused unchanged. |
| RuntimeMedia.OpenImage | src/app/runtime_media.c:491-583 | Success leaves an exported Xbox image or the validated disc of an Xbox 360 image, as recognised; a reliable run fails only for lack of any Xenia target or an unusable path; every failure leaves no open session and every handle owned. |
| RuntimeMedia.PrepareXeniaTarget | src/app/runtime_media.c:585-680 | The target is an export wherever exports are supported and the image file otherwise; at most the validated disc moves into an export; a playable session has a target in a reliable run; the session owns the same medium whatever fails. |
| RuntimePlayback.PlaybackStart | src/app/runtime_playback.c:123-261 | Writes the launch of exactly the medium of the session when the slot is filled; owner and slot agree afterwards, also after a failed launch that keeps a process; a running process is never replaced; a playable session starts in a reliable run. |
| RuntimePlayback.StartOwned | src/app/runtime_playback.c:192-208 | The owner noted before the launch is kept exactly when the backend filled the slot. |
| RuntimePlayback.PlaybackStop | src/app/runtime_playback.c:263-323 | Success means an empty slot and the phase ready; the end of the process is the only event; stopping nothing succeeds without effect; a reliable run always succeeds. |
| RuntimePlayback.PlaybackPoll | src/app/runtime_playback.c:325-372 | The answer of the emulator is logged; one that has ended leaves the slot, always so in a reliable run; owner and slot agree whatever failed. |
| RuntimePlayback.PlaybackShutdown | src/app/runtime_playback.c:374-425 | Success means an empty slot; owner and slot agree whatever failed; a noted terminal failure stays noted. |
| RuntimePlayback.DestroyOwned | src/app/runtime_playback.c:28-45 | Empties slot and owner together, except that the Dolphin branch leaves both alone. |
| RuntimePlayback.StartXemu | src/app/runtime_xemu.c:71-115 | Only an open xemu session with an export is launched; a filled slot is refused. |
| RuntimePlayback.StartXenia | src/app/runtime_xenia.c:113-174 | Only an open Xenia session is launched; the medium survives every failure; success has its storage open. |
| RuntimePlayback.StartDolphin | src/app/runtime_dolphin.c:28-53 | Only an open Dolphin session with an export is launched; a filled slot is refused. |
| RuntimePlayback.StopOrderly | src/app/xemu_process_stop.c:3-32 | Success empties the slot; a failed stop may leave the process or only report its end; the medium keeps its owner. |
| RuntimePlayback.StopXenia | src/app/runtime_xenia.c:176-204 | Success means that the slot is empty and the session storage closed; while the process stays, its storage stays. |
| RuntimePlayback.StopDolphin | src/app/runtime_dolphin.c:55-59 | The slot is emptied exactly on success. |
| RuntimePlayback.PollBackend | src/app/runtime_xenia.c:223-247 | A filled slot keeps its storage; once the slot is empty the poll succeeds exactly when no Xenia storage is left open; Dolphin is polled successfully as stopped only with an empty slot. |
| RuntimePlayback.CloseStorage | src/app/xenia_storage.c:158-172 | Session storage is closed on success and kept for another attempt otherwise. |
| RuntimeDrives.Describe | src/app/runtime_drives.c:63-67 | Every listed device is marked exactly when a pending slot owns a medium for it. |
| RuntimeDrives.Exclusions | src/app/runtime_drives.c:74-98 | The excluded ids are exactly the active device and the devices owed restoration, as far as they are known, and fit the 33 places. |
| RuntimeDrives.Refresh | src/app/runtime_drives.c:70-142 | Writes one inventory, enabled exactly when nothing is owned, nothing plays and nothing is being prepared or preserved, which spares exactly the owned drives; the new list is what it found, with the owed devices marked and behind; a failed one only marks everything disconnected. |
| RuntimeDrives.ListFound | src/app/runtime_drives.c:113-140 | Connected devices come first and in order, owed but missing devices follow as far as they fit. |
| RuntimeDrives.ResolveEntry | src/app/runtime_drives.c:144-177 | The first entry of the selected id, or the earliest usable entry of maximal score, or none when there is none. |
| RuntimeDrives.Resolve | src/app/runtime_drives.c:179-251 | Without a session a drive is resolved exactly when the inventory succeeded and the selected drive, or any if none is selected, is connected, supported, accessible and not owed restoration; it is then the selected one, or one that no better drive is passed over for; a selected and connected drive becomes the current one even when refused; an owned session keeps its device. |
| RuntimeDrives.BestIsPreferred | src/app/runtime_drives.c:144-177 | The chosen drive: one with a medium before one that may have none, that before an empty one, the current one among equals, otherwise the first. |
| RuntimeDrives.RetainFailedCleanup | src/app/runtime_drives.c:253-273 | Succeeds exactly for a known device without a pending slot, a session that is not an image and a free slot; the session moves into the first free slot. |
| RuntimeDrives.ParkingKeepsCustody | src/app/runtime_drives.c:260-268 | Parking a session that failed to close loses no handle. |
| RuntimeDrives.Select | src/app/runtime_drives.c:275-303 | Refused exactly under an emulator, during a preservation or for a bad id; otherwise, if it has to make way, the old session is closed, or set aside in the first free slot when its close fails; it fails exactly when that is impossible. |
| RuntimeDrives.RetryCleanup | src/app/runtime_drives.c:334-345 | Slots are only ever emptied, not while a session is open or an emulator runs, and otherwise all of them in a reliable run. |
| RuntimeDrives.ClosePending | src/app/runtime_drives.c:347-362 | One attempt writes one event for the medium and changes one slot only; success empties it. |
| RuntimeDrives.ClosePendingAll | src/app/runtime_drives.c:347-362 | True exactly when no slot owns anything afterwards. |
| RuntimeSession.SessionClose | src/app/runtime_session.c:93-143 | The session ends empty or with the same medium waiting, and the one event says which; success means empty; a reliable run succeeds. |
| RuntimeSession.StartPlayback | src/app/runtime_session.c:212-224 | Never changes which medium the session owns; a playable session plays afterwards in a reliable run. |
| RuntimeSession.PrepareLive | src/app/runtime_session.c:145-225 | Prepared means an open session on a new handle of the current drive, recognised and launched as wanted, with the phase that shows it; otherwise nothing plays, nothing is open and attention is asked; a failure is retryable exactly when nothing was identified and the error is a missing medium or transport. |
| RuntimeSession.PrepareImage | src/app/runtime_session.c:227-315 | Success means an open session on a new image handle, recognised and launched as wanted, with the phase that shows it; otherwise attention is asked; a session still waiting to be closed is left alone. |
| RuntimeSession.SelectPhysical | src/app/runtime_session.c:317-349 | The current drive is forgotten only while nothing is owned. |
| RuntimeSession.EndPhysical | src/app/runtime_session.c:351-486 | The exact events of an end: the process, one new look for an eject request once nothing plays, the close; the request is authorised exactly when that look still shows it; the monitor is blocked, failed or reset as the end demands; in a reliable run nothing is left. |
| RuntimeSession.Authorise | src/app/runtime_session.c:377-393 | Exactly one look is taken; the answer is yes if and only if it showed the medium present, asking to be ejected, and of the requested generation. |
| RuntimePhysical.ObserveMedia | src/app/runtime_physical.c:42-67 | The monitor is shown the medium exactly when that is due or the session has failed, and what it is shown is what the look showed. |
| RuntimePhysical.FinishWatch | src/app/runtime_physical.c:158-202 | The exact events of the end of a watch: for an eject request a new look is taken once the emulator is gone, the medium is closed, and the request is completed if and only if the look still shows it and the close succeeded; what could not be closed waits with the duty of its event; a reliable run leaves nothing. |
| RuntimePhysical.Poll | src/app/runtime_physical.c:218-287 | A poll shows the monitor medium and connection as each is due; the session ends exactly when that latches an event, an eject request being latched from this very look; an end that waits is tried again. |
| RuntimePhysical.CompleteEject | src/app/runtime_physical.c:105-156 | Sends exactly one completion, for the latched device and generation, forgets the request, and resets or blocks the monitor by the outcome. |
| RuntimePhysical.ValidateCleanup | src/app/runtime_physical.c:318-328 | One new look is taken exactly when an eject waits and the medium is still exported; the eject stays one if and only if the look still shows the request, and otherwise becomes a rearm. |
| RuntimePhysical.CleanupCompleted | src/app/runtime_physical.c:289-316 | The duty of the waiting medium is done: rearm, require a retry, or complete the eject and nothing else. |
| RuntimePreservation.InspectSource | src/app/runtime_preservation.c:155-182 | The opened source is in the preservation session on every outcome; a reliable run succeeds for a known device. |
| RuntimePreservation.BuildCompactSource | src/app/runtime_preservation.c:184-224 | The chain of adapters holds the same medium in one place on every outcome, in the outermost adapter on success. |
| RuntimePreservation.Finish | src/app/runtime_preservation.c:292-322 | The medium is closed or kept in the media session; success is exactly one clean close. |
| RuntimePreservation.RunPreservation | src/app/runtime_preservation.c:368-421 | Success opens the disc, ends with its image written, compact when asked for, and its close, leaves nothing owned and holds further discovery; every handle has an owner on every outcome; a reliable run succeeds. |
| RuntimeActions.Release | src/app/runtime_actions.c:13-21 | Stops and closes in this order; ready means exactly the events of doing so, with nothing left; not ready is possible only when something was left to release and something failed. |
| RuntimeActions.UsePhysicalSource | src/app/runtime_actions.c:5-37 | What is open is released, the drive forgotten and the monitor rearmed; only when the release fails do source, drive and monitor stay as they were, and attention is asked. |
| RuntimeActions.OpenRequestedImage | src/app/runtime_actions.c:39-77 | What is open is released and then the image opened, recognised and launched, or attention asked; an empty path changes nothing but that; a reliable run ends with the image playing wherever it can be played. |
| RuntimeActions.PreserveRequestedDisc | src/app/runtime_actions.c:79-119 | The session is released, its drive opened again, the image written and the disc closed, or attention asked; a reliable run preserves; no slot changes. |
| RuntimeActions.EjectPhysicalDisc | src/app/runtime_actions.c:121-165 | The session is released and one eject sent to the current device, with nothing left of the session, always so if nothing was open or the run is reliable; otherwise attention is asked and nothing sent; it meets an open medium exactly when a slot of that device holds one. |
| RuntimeActions.EjectReachesOwedDrive | src/app/runtime_actions.c:140-142 | Without a session, the current drive has an open medium exactly when a pending slot of that device holds one. |
| RuntimeActions.EjectOwedDrive | src/app/runtime_actions.c:140-142 | A run in which an explicit eject reaches a drive whose medium is still open: its close fails, the session is set aside and the drive forgotten, the drive is selected again and refused, and the eject is sent. |
| RuntimeActions.RestartPlayback | src/app/runtime_actions.c:167-184 | The process is stopped, if there is one, and launched again on the same medium, or attention is asked; a playable session plays afterwards in a reliable run. |
| RuntimeActions.Execute | src/app/runtime_actions.c:186-285 | The effect of every kind of request in every state, stated without the plan: what is started, restarted, stopped, opened, preserved, ejected or forgotten, with the exact events, whether it ends the cycle, and that anything else changes nothing; no request loses a handle or touches a pending slot. |
| RuntimeLoop.RunCycle | src/app/runtime.c:333-384 | One cycle with any inputs keeps the invariant and is a step of the cycle relation: setup, a failed save or stopping end it before a medium is touched, then the drive loop, then a session waiting to be closed, then the effect of the request, then the watch or the idle drive; without a session an eject request is sent; nothing is ejected otherwise, and a drive is opened, even in vain, only by an attempt of the monitor or a requested preservation. |
| RuntimeLoop.RunOwnedCycle | src/app/runtime.c:366-384 | The request has its effect, and unless that ends the cycle the open session is watched or the idle drive looked at. |
| RuntimeCycles.RequestIsExecuted | src/app/runtime.c:333-384 | A cycle that is not kept from its request executes it, in a state that differs only by what the drive loop did, and the rest of the cycle adds to that. |
| RuntimeCycles.EjectIsSent | src/app/runtime_actions.c:121-165 | A cycle with an eject request sends it to the drive that is current, if nothing is open or everything outside succeeds. |
| RuntimeCycles.CloseStopsPlayback | src/app/runtime_actions.c:254-265 | In a reliable run a cycle with a close request ends without the emulator. |
| RuntimeCycles.StartLaunches | src/app/runtime_actions.c:269-280 | In a reliable run a cycle with a start request launches the medium of a playable session. |
| RuntimeCycles.StartLooksForDisc | src/app/runtime_actions.c:244-249 | Without a session and an image, a start request rearms the monitor and the same cycle looks at the drive. |
| RuntimeCycles.StartReopensImage | src/app/runtime_actions.c:232-243 | Without a session, a start request opens the image shown last and plays it, in a reliable run that can. |
| RuntimeCycles.RestartLaunches | src/app/runtime_actions.c:167-184 | In a reliable run a restart, or new display settings under an emulator, stops the process and launches it again. |
| RuntimeCycles.ImageIsOpened | src/app/runtime_actions.c:39-77 | In a reliable run a cycle with an image request ends with that image open and playing, whatever was open. |
| RuntimeCycles.PhysicalIsSelected | src/app/runtime_actions.c:5-37 | A request for the physical source ends with nothing open and no drive, if nothing was open or the run is reliable. |
| RuntimeCycles.DiscIsPreserved | src/app/runtime_actions.c:79-119 | In a reliable run a preservation request writes the image of the disc, compact unless a plain one was asked for, and leaves nothing open. |
| RuntimeLoop.RunCleanupCycle | src/app/runtime.c:77-126 | Waits exactly for an owned session that is not open; after its delay one new look is taken if an eject waits, the medium is closed or kept, and exactly when the close reports no error its duty is done in the same cycle, the eject being completed if and only if the look still shows it. |
| RuntimeLoop.CloseWaiting | src/app/runtime.c:91-103 | A waiting eject that was just validated may be completed exactly after a successful close. |
| RuntimeLoop.ObserveAvailable | src/app/runtime.c:128-223 | The monitor is told of exactly the resolved drive, or that there is none; the medium is opened exactly when that starts an attempt, which takes four steady sightings, a retry standing for all four; it is launched as wanted. |
| RuntimeLoop.Attempt | src/app/runtime.c:190-209 | A prepared medium is shown and launched as wanted; a failed attempt is reported to the monitor as transient or terminal, with nothing open; the wish to launch outlives only a retryable failure. |
| RuntimeLoop.RunIdleCycle | src/app/runtime.c:225-237 | An image source, a preservation hold or a running delay keep the drive untouched; otherwise it is looked at and the delay starts anew. |
| RuntimeLoop.PollPlayback | src/app/runtime.c:239-288 | The emulator is asked; one that has ended leaves its slot and the phase ready, always so in a reliable run; no handle changes its owner. |
| RuntimeLoop.RunActiveCycle | src/app/runtime.c:290-331 | The emulator is asked, then an image is checked for a failed export and a physical session watched, with exactly what the watch does. |
| RuntimeLoop.ApplyDriveSelection | src/app/runtime_drive_loop.c:6-42 | A selection is refused, or the session makes way, or it stays; the exact state after each. |
| RuntimeLoop.RefreshInventory | src/app/runtime_drive_loop.c:44-54 | The drives are listed exactly when that is due, and the list and its failure are those of that inventory; no handle changes. |
| RuntimeLoop.DriveLoopPoll | src/app/runtime_drive_loop.c:56-76 | A first selection, the inventory, a second selection and the retry of the pending cleanups, each exactly when due, in this order; a selection or stopping ends the cycle. |
| RuntimeLoop.RunCycles | src/app/runtime.c:386-397 | The states between the cycles are a run of the cycle relation over the given inputs; the log only grows, no more ejects are sent than were asked for, and until the monitor is reset a drive is opened, even in vain, at most three more times than preservations were asked for. |
| RuntimeLoop.Cleanup | src/app/runtime_controls.c:117-178 | True exactly when no process, storage, session or pending slot is left and no handle is open, always so in a reliable run; the settings are flushed on the first call only, and a failed flush is noted. |
| RuntimeLoop.RunWorker | src/app/runtime.c:386-422 | A run of cycles with any inputs from the empty state and then cleanups until one succeeds, which the first does in a reliable run: every open handle has one owner, the drives owed restoration are known and different, no more ejects were sent than asked for, and once finished every handle ever opened was closed. |
| RuntimeLoop.Destroy | src/app/runtime_controls.c:57-115 | The runtime is freed only when nothing is owned, and with an error exactly when one was noted; an unfinished worker is never interrupted. |
| SettingsThreads.NoLostEdits | src/app/runtime_setup.c:12-39 | In every interleaving: clean settings with no write under way are the stored ones in every field but the chosen drive exactly when they were when loaded, or have been edited or written since. |
| SettingsThreads.CleanMeansStored | src/app/runtime_setup.c:12-39 | With the drive included: they are the stored ones exactly when that holds and the drive chosen last is the one in the last successful write. |
| SettingsThreads.ChosenDriveCanStayUnsaved | src/app/runtime_drives.c:310-329 | A run ends clean with another drive stored than chosen, after the write of the choice failed. |
| SettingsThreads.SelectionIsStoredWhenWritten | src/app/runtime_drives.c:310-329 | A selection made from stored settings is stored exactly when its own write succeeds, or when it chose nothing new. |
| SettingsThreads.CleanIsNotWritten | src/app/runtime_setup.c:12-28 | Clean settings stay unwritten until another edit or selection, even through the forced final flush. |
| SettingsThreads.RunKeeps | src/app/runtime_setup.c:27-38 | What holds during writes, failed writes and edits made meanwhile. |
| SettingsThreads.PendingIsExact | src/app/runtime_setup.c:41-213 | Until stopping, the pending flag is set exactly while a setup request is queued or held; it is never clear while one is. |
| SettingsThreads.OneOutstandingChoice | src/app/runtime_setup.c:70-119 | At most one chosen emulator is outstanding, and its path is the override in the settings. |
| SettingsThreads.PreparedChoiceIsStored | src/app/runtime_setup.c:152-156 | An emulator is prepared only once its path is in the stored file. |
| SettingsThreads.SettingsAreFinal | src/app/runtime_controls.c:194-205 | After the worker has left its loop no step of either thread changes the settings. |
| SettingsThreads.NoIdleRetry | src/app/runtime_setup.c:33-37 | A failed save is not retried before another edit, drive selection, chosen emulator or the shutdown, whatever other requests are taken and executed meanwhile. |
| SettingsThreads.ClosingRetries | src/app/runtime_controls.c:117-130 | The flush after the worker has left its loop stores dirty settings exactly when its write succeeds, and leaves them dirty otherwise. |
| SettingsThreads.SavableExactlyWithPlainTexts | src/app/preferences.c:395-414 | After any run, whatever was loaded, the settings can be saved exactly when the label of the drive chosen last is plain and the override, the directory and the drive id were each plain when loaded or have been replaced since. |
| SettingsThreads.UnsavableIsNotStored | src/app/preferences.c:395-414 | As long as a text that is not plain is not replaced itself, the settings cannot be saved and nothing else that is edited reaches the file. |
| SettingsThreads.EditRepairs | src/app/runtime_setup.c:100-110 | Replacing a bad override makes the settings savable again, and the flush after it stores them. |
| SettingsThreads.LoadedIsSane | src/app/preferences.c:163-336 | Whatever a file is decoded to, and the defaults, could be saved but for its texts. |
| SettingsThreads.LabelCanMakeSettingsUnsavable | src/app/runtime_drives.c:314-318 | A drive whose name holds a carriage return makes the settings unsavable. |
| SettingsProtocol.SharedRuntime.Publish | src/app/runtime_state.c:135-175 | A publication never changes the settings, the queue or the flags. |
| SettingsProtocol.SharedRuntime.Submit | src/app/runtime_setup.c:70-119 | Accepts exactly under the listed conditions; otherwise the shared state is unchanged; the last refusal cannot happen. |
| SettingsProtocol.SharedRuntime.BeginFlush | src/app/runtime_setup.c:18-28 | Takes a copy and clears both flags exactly when a flush is due. |
| SettingsProtocol.SharedRuntime.TakeSetupRequest | src/app/runtime_setup.c:41-68 | Removes the first setup request from the middle of the queue, unless stopping. |
| SettingsProtocol.SharedRuntime.FinishExecution | src/app/runtime_setup.c:185-192 | Afterwards the pending flag says whether another setup request waits. |
| SettingsProtocol.SharedRuntime.EnqueueRequest | src/app/runtime_controls.c:13-31 | While a setup request is pending only display changes are accepted. |
| SettingsProtocol.SharedRuntime.SetDisplay | src/app/runtime_controls.c:310-355 | Invalid values and a stopping runtime change nothing; otherwise every display field has the given value, the scale being one on a handheld, no other field changes, and the settings are marked dirty even when the request is refused. |
| SettingsProtocol.SharedRuntime.SetAutoStart | src/app/runtime_controls.c:194-205 | The edit is marked dirty, or refused when stopping. |
| SettingsProtocol.SharedRuntime.SetPreservationDirectory | src/app/runtime_controls.c:404-430 | Accepted means stored in the settings and dirty; refused means unchanged. |
| SettingsProtocol.SharedRuntime.SelectDrive | src/app/runtime_controls.c:369-402 | Accepted only with an empty queue and an idle runtime. |
| SettingsProtocol.SharedRuntime.ApplySelection | src/app/runtime_drives.c:310-325 | The chosen drive and its label enter the settings and the copy, and nothing is marked dirty. |
| RuntimeCommands.RequestQueue.Enqueue | src/app/runtime_commands.c:3-34 | On the sequence of waiting requests: coalesce with the newest entry of the same kind, imports aside, append while fewer than 16 wait, or refuse. |
| RuntimeCommands.RequestQueue.Dequeue | src/app/runtime_commands.c:36-51 | On the sequence: take the oldest entry. |
| RuntimeCommands.RequestQueue.CloseGap | src/app/runtime_setup.c:58-62 | On the sequence: drop one entry across the wrap-around and keep the order of the others. |
| RuntimeCommands.RequestQueue.TakeSetup | src/app/runtime_setup.c:50-66 | On the sequence: take the first setup entry, if there is one. |
| RuntimeCommands.ImportsAreDeliveredInOrder | src/app/runtime_commands.c:3-51 | Every accepted import is delivered or waiting exactly once, in the order of acceptance, and at most 16 requests wait. |
| RuntimeCommands.NewestOfEachKindSurvives | src/app/runtime_commands.c:16-24 | Coalescing never loses the newest request of a kind. |
| RuntimeCommands.EqualNeighboursCanRemain | src/app/runtime_setup.c:58-62 | A run that leaves two start requests side by side. |
| RuntimeCommands.NeighboursStep | src/app/runtime_setup.c:50-66 | A step keeps equal kinds apart exactly unless it takes a setup request from between two requests of one kind. |
| RuntimeCommands.NeighboursDifferUnlessJoined | src/app/runtime_commands.c:16-24 | Over whole runs only imports ever stand next to their own kind exactly when no step does that. |
| RuntimeCommands.SelectTaken | src/app/runtime_setup.c:50-66 | Taking an entry removes it alone from the requests of its kind. |
| OpticalMonitors.CountersAreHistory | src/app/optical_monitor.c:71-102 | Both debounce counters are capped counts of the observation history. |
| OpticalMonitors.AttemptNeedsSteadyMedium | src/app/optical_monitor.c:71-102 | An attempt starts exactly when it is permitted and the medium was seen four times in a row, a retry standing for all four. |
| OpticalMonitors.AtMostThreeAttempts | src/app/optical_monitor.c:33-102 | Between resets at most three attempts start, in any interleaving of observations and failures. |
| OpticalMonitors.TerminalFailureLatches | src/app/optical_monitor.c:33-50 | After a terminal failure no attempt starts before a reset or another failure. |
| OpticalMonitors.ThreeAttemptsHappen | src/app/optical_monitor.c:33-102 | The bound of three is reached. |
| OpticalMonitors.OpticalMonitor.Observe | src/app/optical_monitor.c:71-102 | The new counters and the answer for every state and observation. |
| OpticalMonitors.OpticalMonitor.Fail | src/app/optical_monitor.c:33-50 | Two transient failures are forgiven, everything else needs a command. |
| PhysicalMonitors.LatchIsFirstEvent | src/app/physical_media_monitor.c:14-144 | The latched event is the first one the history gives rise to, and until then every counter is a count over the history. |
| PhysicalMonitors.OneGenerationBeforeLatch | src/app/physical_media_monitor.c:51-62 | All generations accepted before the latch are equal. |
| PhysicalMonitors.LatchIsPermanent | src/app/physical_media_monitor.c:14-23 | A latched event never changes again. |
| PhysicalMonitors.FaultLatchesWithinThree | src/app/physical_media_monitor.c:62-80 | After a session fault the third observation latches an event. |
| PhysicalMonitors.EjectLatchHasRequest | src/app/physical_media_monitor.c:46-50 | An eject is latched exactly when an observation before any other event asked for it. |
| PhysicalMonitors.PhysicalMediaMonitor.Observe | src/app/physical_media_monitor.c:35-102 | The new latch and counters for every state and observation. |
| PhysicalMonitors.PhysicalMediaMonitor.Connection | src/app/physical_media_monitor.c:104-134 | The new latch and counter for every connection reading. |
| ReadAhead.RangeContains | android/emulator/gdox_qemu_disc.c:316-331 | The overflow-free test is containment of the range. |
| ReadAhead.BlockState.FillWindow | android/emulator/gdox_qemu_disc.c:406-433 | The window is refilled exactly when its whole range is readable, and is invalid otherwise. |
| ReadAhead.BlockState.ReadWithAhead | android/emulator/gdox_qemu_disc.c:333-441 | Succeeds exactly when a direct read would, with the same bytes, after any history; exactly one of fills, hits and direct reads is counted. |
| ReadAhead.BlockState.Read | android/emulator/gdox_qemu_disc.c:443-587 | A block request succeeds exactly when its whole range exists and can be read directly, with those bytes; the statistics stay consistent. |
| ReadAhead.BlockState.CountRequest | android/emulator/gdox_qemu_disc.c:463-506 | Every request is in one size bucket and, after the first, sequential or not. |
| ReadAhead.WindowGivesDirect | android/emulator/gdox_qemu_disc.c:361-376 | Bytes copied from a valid window are the bytes of a direct read. |
| MachO.PutThenGet | scripts/package_xemu_macos_runtime.py:161-256 | For any accepted image of one architecture, overwriting the located UUID changes only those 16 bytes, keeps slices and offsets, and reading back gives what was written. |
| MachO.GetThenPut | scripts/package_xemu_macos_runtime.py:232-256 | Writing back the UUID that is there changes nothing. |
| MachO.PutTwice | scripts/package_xemu_macos_runtime.py:240-256 | Of two writes only the second is visible. |
| MachO.PayloadsAreInside | scripts/package_xemu_macos_runtime.py:198-229 | Every located payload lies in its load-command area, behind a command header. |
| MachO.PatchKeepsCommands | scripts/package_xemu_macos_runtime.py:198-229 | Overwriting a located payload leaves the walk over the load commands unchanged. |
| MachO.PatchKeepsSlices | scripts/package_xemu_macos_runtime.py:161-195 | A patch behind the header of the slice is not seen by the slice table. |
| MachO.ParseSlice | scripts/package_xemu_macos_runtime.py:198-229 | The loop over the load commands finds what the recursive walk finds, or fails with it. |
| MachO.ParseUuids | scripts/package_xemu_macos_runtime.py:198-237 | The loop over the slices finds every located UUID, or fails. |
| MachO.Normalize | scripts/package_xemu_macos_runtime.py:240-256 | Normalises in place exactly the images of one slice of the given architecture; the final comparison never fails; a refused image is unchanged. |
| MachOImages.PayloadsAreFound | scripts/package_xemu_macos_runtime.py:198-229 | In any area of well-formed load commands the walk finds exactly the payloads of the UUID commands. |
| MachOImages.BadCommandIsRefused | scripts/package_xemu_macos_runtime.py:210-221 | A UUID command that is not 24 bytes long, a command shorter than 8 bytes and one that leaves its area are refused. |
| MachOImages.SliceUuidIsFound | scripts/package_xemu_macos_runtime.py:198-229 | In a slice that holds a 64-bit image the UUID is found exactly when one command has it. |
| MachOImages.ThinImageIsRead | scripts/package_xemu_macos_runtime.py:161-237 | A thin image of either known processor has the UUID that was written into it; every other processor is refused. |
| MachOImages.FatFileIsRead | scripts/package_xemu_macos_runtime.py:161-195 | The slices of a universal file of either width are the entries of its table, accepted exactly when there is one, all are good and no architecture comes twice. |
| SourceTree.CanonicalStream | scripts/android_source_provenance.py:100-145 | The loops feed exactly the specified stream, whose bytes FileStream and LinkStream fix, or fail when it is undefined. |
| SourceTree.FileStream | scripts/android_source_provenance.py:69-145 | The bytes of a regular file: header, framed path, tag F, mode 0755 if an execute bit is set and 0644 otherwise, size, and the digest whose hexadecimal form was given. |
| SourceTree.LinkStream | scripts/android_source_provenance.py:69-145 | The bytes of a symbolic link: header, framed path, tag L, mode 0777, and the framed target. |
| SourceTree.AcceptedEntries | scripts/android_source_provenance.py:69-126 | Exactly which entries are accepted: the path, and for each kind its size, digest and target. |
| SourceTree.BeforeIsLexicographic | scripts/android_source_provenance.py:126-126 | Paths are ordered by their first differing byte, a prefix first. |
| SourceTree.AdjacentCheckFindsDuplicates | scripts/android_source_provenance.py:100-145 | After sorting, the adjacent comparison rejects exactly the lists with a duplicate path. |
| SourceTree.StreamDependsOnSet | scripts/android_source_provenance.py:100-145 | Trees with the same normalised entries have the same stream. |
| SourceTree.PermutationInvariance | scripts/android_source_provenance.py:100-145 | Any permutation of the entries has the same stream, or none either. |
| SourceTree.StreamIsInjective | scripts/android_source_provenance.py:95-145 | Equal streams come from equal sets of paths with equal identities. |
| SourceTree.StreamDefined | scripts/android_source_provenance.py:69-145 | Which trees have a stream: entries with accepted paths that fit their fields, with distinct paths. |
| SourceTree.AcceptedPaths | scripts/android_source_provenance.py:77-86 | A path is accepted exactly when it is relative, normal and free of dot parts, or is a single dot. |
| SourceTree.DotTreeHasAStream | scripts/android_source_provenance.py:77-145 | A tree whose one file is called by a single dot has a stream. |
| SourceTree.RecordsDecode | scripts/android_source_provenance.py:95-145 | A sequence of framed records can be read back in one way only. |
| SourceTree.SortSorts | scripts/android_source_provenance.py:100-145 | Sorting by path orders the entries and keeps them. |
| ElfVersions.ChainOffsetsIncrease | scripts/elf_compatibility.py:251-335 | Along an accepted chain offsets grow by at least 16 an entry, so the visited sets never hold the next offset. |
| ElfVersions.ChainIsExact | scripts/elf_compatibility.py:251-335 | The versions of a chain are exactly those some entry of it contributes. |
| ElfVersions.WalkIsExact | scripts/elf_compatibility.py:251-335 | The versions found are exactly those some auxiliary of some requirement names. |
| ElfVersions.WalkStaysInFile | scripts/elf_compatibility.py:187-335 | Every requirement and auxiliary of an accepted walk lies in the file, behind the ones before it. |
| ElfVersions.WalkOverflows | scripts/elf_compatibility.py:312-322 | The conversion to a number fails exactly when the walk reaches a glibc name with a component of more than 4300 digits. |
| ElfVersions.SmallVersionCanBeOverlong | scripts/elf_compatibility.py:312-322 | Such a name can stand for a version below the ceiling. |
| ElfVersions.WalkChain | scripts/elf_compatibility.py:293-328 | The loop ends for every input with the versions of the recursive chain, or fails with it in the same way. |
| ElfVersions.WalkRequirements | scripts/elf_compatibility.py:251-335 | Both loops end with the result of the recursive chains, or fail with them. |
| ElfVersions.ReadDynamicValues | scripts/elf_compatibility.py:201-235 | The dynamic section is read as specified, or rejected. |
| ElfVersions.ValidateReleaseArtifact | scripts/elf_compatibility.py:343-375 | For every byte string the check ends; it accepts exactly the well-formed images that require some glibc version and none above 2.38.0, and reports the largest; it ends without a verdict exactly when the walk reaches a name with a component of more than 4300 digits. What a name requires is fixed by TwoPartName, ThreePartName and OtherName. |
| ElfVersions.TwoPartName | scripts/elf_compatibility.py:312-322 | GLIBC_a.b requires version (a, b, 0), in decimal, unless a component has more than 4300 digits. |
| ElfVersions.ThreePartName | scripts/elf_compatibility.py:312-322 | GLIBC_a.b.c requires version (a, b, c), in decimal, unless a component has more than 4300 digits. |
| ElfVersions.OtherName | scripts/elf_compatibility.py:312-322 | Every other name requires nothing. |
| ElfVersions.DecimalReads | scripts/elf_compatibility.py:312-322 | Reading the decimal digits of a number gives the number. |
| ElfVersions.AtMostIsNumeric | scripts/elf_compatibility.py:343-375 | Versions are ordered as the numbers with their three parts as digits. |
| ElfArtifacts.NamesAreFound | scripts/elf_compatibility.py:101-335 | In an artifact written from its tables, with anything in the fields that are not read, exactly the three names of its requirement are found. |
| ElfArtifacts.VersionIsFound | scripts/elf_compatibility.py:101-335 | An artifact that names GLIBC_a.b is well-formed and requires exactly (a, b, 0). |
| ElfVersions.AcceptedNamesAreBelowCeiling | scripts/elf_compatibility.py:343-375 | No name in an accepted file requires a version above the ceiling. |
| ElfVersions.Maximum | scripts/elf_compatibility.py:365-372 | The reported version is one of those required and none is larger. |
| ArchiveMembers.NoFindingsMeansClean | scripts/release_archive_audit.py:55-98 | No finding exactly when names are distinct, portable keys are distinct and no key lies under that of a member that is not a directory. |
| ArchiveMembers.VerdictIgnoresOrder | scripts/release_archive_audit.py:62-98 | The clean verdict does not depend on the order of the members. |
| ArchiveMembers.CleanStep | scripts/release_archive_audit.py:62-98 | Each member adds no finding exactly when the list stays clean with it. |
| ArchiveMembers.StartsWithIsUnder | scripts/release_archive_audit.py:74-94 | The string prefix test with a separator is the component-wise prefix relation. |
| ArchiveMembers.ArchiveMemberTracker.Inspect | scripts/release_archive_audit.py:62-98 | The findings added and the names remembered for every member. |
| ArchiveMembers.InspectAll | scripts/release_archive_audit.py:62-98 | Inspecting a list gives the findings of the whole list. |
| Preferences.RoundTrip | src/app/preferences.c:299-456 | Decoding what a save writes gives the same settings, the label dropped when there is no device. |
| Preferences.TextFits | src/app/preferences.c:379-456 | The text of savable settings fits its buffer, and so the limit on reading. |
| Preferences.Save | src/app/preferences.c:379-456 | Writes exactly the savable settings; the buffer never overflows. |
| Preferences.DecodeText | src/app/preferences.c:299-336 | The cursor loop decodes as specified. |
| Preferences.LinesDecode | src/app/preferences.c:234-336 | Any list of good lines with distinct keys is decoded to what its lines say. |
| Preferences.LoadedIsSavableWithoutReturns | src/app/preferences.c:299-336 | A file that is accepted can be saved again exactly when no line of a string key holds a carriage return in front of its line end. |
| Preferences.SomeLoadedSettingsCannotBeSaved | src/app/preferences.c:310-315 | A file with a carriage return inside a value is loaded and refused by every save. |
| Preferences.DecodingKeepsLoadable | src/app/preferences.c:163-336 | Every decoded setting is in its range and fits its buffer. |
| PreferencesFormat.DecodesExactly | src/app/preferences.c:163-336 | A text is accepted exactly when every line is empty or says an allowed value, no known key is said twice and the schema is said; every field then holds what the file says, and its default otherwise. |
| PreferencesFormat.KnownIsAssigned | src/app/preferences.c:149-297 | A known key is accepted once with a value in its literal range or capacity, and sets its own field only. |
| PreferencesFormat.Keys | src/app/preferences.c:234-297 | The names of the settings in the file. |
| PreferencesFormat.LinesOfJoined | src/app/preferences.c:299-336 | The lines are the text cut at its newlines. |
| PreferencesFormat.OnlySchema | src/app/preferences.c:28-46 | A file that says only its schema gives the default settings. |
| PreferencesFormat.EncodeIs | src/app/preferences.c:379-456 | The text that is written, line by line. |

## Left out

- Status, notice and label texts, logging, button flags, window pages and the rest of the user interface.
- Wall-clock time: delays are counters of cycles.
- SCSI, USB, sockets, process spawning, the file system, QEMU and JNI glue: outcomes of calls are arbitrary within the contracts of the headers.
- That a failed open of a disc image leaves nothing open is taken from `gdox_media_open_image`, whose code is not part of this model.
- Media observations of file-backed sources are taken to carry no eject request, as include/gdox/source.h describes for immutable sources.
- The pending table and the drive list are values of type `seq` in a field, not arrays; no C code refers into them across calls, so aliasing is not lost.
- The export address compared by the physical watch is the handle of the medium; a new export at the address of a freed one is not modelled.
- Identity, policy and header checks of opened media (`select_xenia_policy`, `validate_xenia_disc`, volume and title parsing) are arbitrary outcomes.
- Preparation of xemu bundles and firmware imports, save migration, Xenia and Dolphin runtime resolution: arbitrary outcomes.
- Reads of the settings by the session runtime (auto start, selected drive) are inputs of a cycle; the settings themselves are in `SettingsThreads`.
- RuntimePlayback.StopBackend: does not promise an empty slot on success for every backend, because `gdox_runtime_playback_stop` does not rely on it and clears the slot itself.
- Whether the session has failed, whether the drive is known to be connected and whether an export has failed are inputs of a cycle.
- What Xenia can be given is the same for every disc of a run; the code asks it for the reviewed runtime of the disc.
- The error code of a failed open is the platform's.
- `strtoul` accepts leading blanks and signs; the decoder of the model reads plain decimal digits, which is all the encoder writes.
- Unicode normalisation and case folding in `portable_member_key` are an arbitrary function from names to keys.
- SHA-256 is not modelled; the results are about the stream that is hashed.
- The failure of a mutex lock or of memory allocation, except for the bounce buffer of a block request.
- `runtime_bundle.c`, `dolphin_profile.c`, `preservation_naming.c`, the manifest validators and the packaging scripts other than the functions above: mostly input and output, or easy members.
- `link_target_escapes` is a lexical check only; nothing is claimed about resolution through symbolic links.
