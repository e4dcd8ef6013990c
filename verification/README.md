# Hibiki DSP control plane: a verified model

Hibiki DSP is a Windows audio router. Its user interface talks to an audio engine over a named pipe,
keeps small catalogs of devices, routing presets and scenes beside the engine's own, and captures
browser tabs through an extension. This project models the parts of that control plane that decide
something, and proves what they are for. `dafny verify dfyconfig.toml` checks all of it.

- **Offline scene synchronisation** (`SceneCatalog`, `SceneQueue`, `SceneSync`, `SceneRuns`,
  `SceneReplay`, `SceneLosses`, `SceneLedger`, `SceneExactness`, `SceneLimits`, `SceneViewModel`). The view model
  mirrors the engine's scene catalog, saves cards and a 64-entry replay queue in two files, and replays the queue
  after a reconnect. The machine has a state for mirror, card file, pending queue, queue file, connection and engine,
  and events for edits, connections, restarts of either side, and every way a send or a file write can end. Two sets
  that no branch reads record which ids have stopped agreeing; `SceneLosses` says what can get there within the
  limits, and `SceneExactness` when exactly one step breaks an agreement.
- **Bounded PEQ compiler** (`PeqSelection`, `PeqCompiler`, `PeqPromises`, `Sorting`). A greedy choice of measured
  points under a spacing rule and a cap, then one clamped filter per point.
- **Wire codec, framing, correlation** (`Bytes`, `Decibels`, `Records`, `IpcCodec`, `ControlPipe`,
  `DeviceCatalogPayload`, `RouteRulePayload`, `ControlStatusPayload`, `WireLayout`). Fixed layouts, Q16.16
  decibels, frames on a byte stream, and which command a reply is credited to.
- **Engine loops** (`WavSource`, `Utf8`, `DeliverySlots`). Looped WAV blocks, UTF-8 truncation, and the
  slots of the capture sources.
- **Tab capture** (`TabBridge`, `CaptureLifecycle`, `CaptureOutcomes`). The reconnecting bridge socket, and two
  serial queues that share one document.
- **Catalogs** (`DeviceCatalog`, `RouteRules`). The device table, and the rule list whose sort makes a
  linear resolver right.

In the scene machine an id is *lost* when its last queued operation is evicted, cannot be encoded or is refused
by a full engine; when an upsert that cannot be encoded is made online; when an edit is rolled back after the
engine applied it; when a direct send overtakes a queued operation; when the engine restarts and nothing queued
names it; and at a restart of the program, when the two files are not alike on it: the last saved operation on it asks
for something else than the saved card or, without one, the saved card is not the mirror's. It is found again when a
later operation on it is queued durably or confirmed by an engine that had room. An id is *overtaken* while the queue file
still names it after a later direct send was confirmed, until the file is next written or read back.

The *limits* of `SceneLosses`: scene ids of at most 26 bytes and valid output groups, no cancelled send, and a queue
write that succeeds when a reply was lost. The queue may overflow, any other write may fail, and both sides may restart
at any time; what that costs is collected step by step in `SceneLosses.Forfeited`.

State the source changes step by step is changed step by step here: classes with the source's fields, whose
methods are proved equal to a step function. What a run keeps is then proved about the step functions.

Where a promise is false of the code, the code is kept. A lemma names an input that breaks the promise, and
another says exactly when the promise holds:

- The engine acknowledges a scene command when it is queued and ignores a refusal at its limit of 32
  scenes, so replaying a stale queue file can lose a scene (`SceneLimits.StaleReplayLosesAScene`). It is harmless
  exactly when no id's last upsert finds the engine full (`SceneReplay.StaleReplayIsHarmlessExactly`).
- An overflowing queue was meant to cost only the scenes it drops. Dropping a removal leaves the engine full and costs
  another scene (`SceneLimits.OverflowingRemovalCostsAnotherScene`). Within the limits only ids that were evicted, refused
  or hit by a restart are lost (`SceneLosses.OnlyForfeitedIdsAreLost`), and nothing is refused when the run adds at most
  32 scenes (`SceneLosses.OnlyEvictedOrRestartedIdsAreLost`); what one eviction costs is `SceneSync.TrimmedLosesExactly`.
- `docs/specs/SPEC-0014-custom-scene-catalog.md` allows scene ids of 1 to 31 bytes. The encoder needs room for a
  lane suffix, so a longer upsert is saved and queued but never sent (`SceneLimits.LongIdNeverArrives`), exactly when its
  id has 27 to 31 bytes (`SceneCatalog.EncodableExactly`).
- The same document says an unfinished replay keeps its persisted state; the code ignores failed saves during a
  replay (`SceneLimits.StaleFileRevertsALaterEdit`). A restart leaves an id in agreement exactly when the last saved
  operation on it, if any, asks for the saved card (`SceneExactness.RestartAgreesExactly`).
- A direct send can be overtaken by a queued one (`SceneLimits.CancelledSendIsOvertaken`), exactly when the last
  queued operation on its id has another effect (`SceneExactness.DirectSendAgreesExactly`).
- A roll-back can leave the engine ahead (`SceneLimits.FailedQueueWriteLeavesTheEngineAhead`), exactly as
  `SceneExactness.RollBackAgreesExactly` says.
- An engine restart forgets scenes (`SceneLimits.EngineRestartForgets`), exactly those no queued operation names
  (`SceneExactness.EngineRestartAgreesExactly`).
- A route rule with one unprintable matcher is encoded but not decoded (`RouteRulePayload.UnprintableMatcherIsLost`,
  `RouteRulePayload.ReadBackExactlyWhenMatchersArePrintable`).
- A volume that uses all of its 0.05 dB slack is encoded but not decoded
  (`ControlStatusPayload.SlackAloneDoesNotSurvive`, `ControlStatusPayload.ReadBackExactlyWithinSlack`).
- No command is credited with another command's Ack as long as each id is written once, which the ids of one session
  are (`ControlPipe.CommandsAreCreditedWithTheirOwnAck`, `ControlPipe.SessionIdsAreWrittenOnce`). Sending one envelope
  twice credits the second send with the reply to the first (`ControlPipe.ResendingIsCreditedWithTheAbandonedReply`); a
  reply is accepted exactly when the oldest unanswered transmission carried the same id
  (`ControlPipe.AcceptedRepliesCarryTheRequestId`).
- When the audio context of a capture cannot be constructed, the document's capturing flag stays set and the reported
  bridge state stays retrying, with no socket or timer left (`TabBridge.AbandonedStartIsStuck`); a capture makes
  progress exactly when this did not happen to its start (`TabBridge.ProgressesExactly`).
- A replaced service worker can close a document whose capture is starting
  (`CaptureLifecycle.RestartedWorkerClosesAStartingCapture`), exactly when the document has a start in it but no context
  when it answers (`CaptureLifecycle.AnsweredReleaseIsUnsafeExactly`).

## Model

| member | source | states |
|---|---|---|
| SceneSync.EveryRunAgrees | apps/control-model/EasyControlViewModel.cs:1157-1216 | in every run, whatever fails, replaying the pending operations on the engine's catalog gives the mirror at every id not recorded as lost, also after sends that were applied but not acknowledged; so does the saved queue off the overtaken ids |
| SceneLosses.OnlyForfeitedIdsAreLost | apps/control-model/EasyControlViewModel.cs:1157-1216 | in every run within the limits, however often the queue overflows, flush saves or roll-backs fail and either side restarts, the agreements hold at every id that was not evicted unnamed, refused at capacity or hit by a restart, or that a later edit settled; the saved queue agrees too unless the id is overtaken |
| SceneLosses.OnlyEvictedOrRestartedIdsAreLost | apps/control-model/EasyControlViewModel.cs:2290-2306 | in such a run that adds at most 32 different scenes, they hold at every id except those evicted and not named by a later operation, or hit by a restart |
| SceneLosses.StepCost | apps/control-model/EasyControlViewModel.cs:2331-2367 | what one step within the limits can add to the lost ids: the evicted unnamed id; ids whose last queued operation was sent and refused by a full engine; at a restart of the program the ids on which the files are not alike; at a restart of the engine the ids nothing queued names |
| SceneLosses.FlushCost | src/hub/src/scene_catalog.cpp:64-86 | a replay that stops anywhere loses only ids whose last queued operation is refused and has left the queue |
| SceneLedger.EveryOperationIsAccountedFor | apps/control-model/EasyControlViewModel.cs:2290-2306 | in every run without a restart of the program, each operation that was queued waits, has left by a flush, or is counted as dropped |
| SceneLedger.StepKeepsAccount | apps/control-model/EasyControlViewModel.cs:2059-2097 | every step keeps that account, and a restart takes over the saved queue with its saved drop count |
| SceneSync.RunKeepsInvariant | apps/control-model/EasyControlViewModel.cs:1094-1216 | bounds, validity and both agreements hold after every run |
| SceneSync.AddKeeps | apps/control-model/EasyControlViewModel.cs:1157-1216 | an add keeps the agreements whichever writes and sends fail, including the roll-back |
| SceneSync.RemoveKeeps | apps/control-model/EasyControlViewModel.cs:2219-2288 | so does a removal |
| SceneSync.FlushedKeeps | apps/control-model/EasyControlViewModel.cs:2331-2367 | so does a flush that stops anywhere, with saves failing and operations dropped as not encodable |
| SceneSync.RestartKeeps | apps/control-model/EasyControlViewModel.cs:1960-1976 | so does a restart of the program, at every id that was not lost and on which the two files are alike |
| SceneSync.EngineRestartKeeps | src/hub/src/scene_catalog.cpp:96-99 | after the engine loses its catalog, an id that was not lost agrees if and only if it is not in the mirror or a queued operation names it |
| SceneSync.TrimmedLosesExactly | apps/control-model/EasyControlViewModel.cs:2290-2306 | making room drops the oldest operations down to 63, and an id becomes lost by it if and only if a dropped operation named it and no kept one does |
| SceneSync.OutcomeWhenNamed | apps/control-model/EasyControlViewModel.cs:2331-2367 | once a queue names an id, what the engine held there before is irrelevant, which is what makes resending safe |
| SceneSync.ConsumeAt | src/hub/src/scene_catalog.cpp:64-94 | the engine changes one id or refuses at 32 scenes, and never exceeds them |
| SceneRuns.NothingIsLostWithinTheLimits | apps/control-model/EasyControlViewModel.cs:1157-1216 | with short ids and valid output groups, room in the queue, queue writes succeeding in a flush and after a lost reply, no cancelled send, no restart while the card file is behind and no engine restart, the queue file is current, replaying either queue gives exactly the mirror, and a connected engine shows exactly the mirror |
| SceneRuns.CardFileIsCurrent | apps/control-model/EasyControlViewModel.cs:2103-2116 | the card file equals the mirror in every run whose roll-backs are all written, whatever else fails |
| SceneRuns.HeadSentStaysWhole | apps/control-model/EasyControlViewModel.cs:2335-2362 | within those limits the head of the replay is never refused at capacity, even when its reply was lost and it is sent again |
| SceneReplay.StaleReplayIsHarmlessUnbounded | apps/control-model/EasyControlViewModel.cs:2335-2362 | replaying from any earlier point of a history the catalog has followed further ends where the history ends, if the catalog has no bound |
| SceneReplay.StaleReplayIsHarmlessExactly | src/hub/src/engine_control.cpp:406-413 | on the 32-scene engine it does so if and only if no id's last upsert is refused on the way |
| SceneReplay.RestartIsHarmlessExactly | apps/control-model/EasyControlViewModel.cs:1960-1976 | the same for the whole machine: restart with a stale queue file, reconnect, replay |
| SceneReplay.RoomForAllLosesNothing | src/hub/src/scene_catalog.cpp:64-86 | a check that can be made before sending: room for the engine's scenes and all queued upserts together loses nothing |
| SceneReplay.FlushDrains | apps/control-model/EasyControlViewModel.cs:2331-2367 | when every send is acknowledged a flush leaves nothing pending and the engine as the queue's replay makes it |
| SceneReplay.DrainAt | src/hub/src/engine_control.cpp:36-120 | the bounded engine and an unbounded one end alike at an id exactly unless its last upsert is refused |
| SceneExactness.RestartAgreesExactly | apps/control-model/EasyControlViewModel.cs:1960-1976 | a restart leaves an id in agreement if and only if the last saved operation on it asks for the saved card or, without one, the saved card is the mirror's |
| SceneExactness.RestartGivesTheCardsExactly | apps/control-model/EasyControlViewModel.cs:2118-2134 | replaying the queue file gives exactly the saved cards if and only if that holds for every id |
| SceneExactness.RestartShowsExactly | apps/control-model/EasyControlViewModel.cs:2399-2405 | the same after an acknowledged replay on the bounded engine |
| SceneExactness.EngineRestartAgreesExactly | apps/control-model/EasyControlViewModel.cs:2399-2405 | a scene survives an engine restart if and only if a queued operation names it |
| SceneExactness.DirectSendAgreesExactly | apps/control-model/EasyControlViewModel.cs:1188-1210 | an acknowledged direct send leaves its id in agreement if and only if the last queued operation on it has the same effect or, without one, the engine had room |
| SceneExactness.RollBackAgreesExactly | apps/control-model/EasyControlViewModel.cs:1195-1204 | an edit whose send and queue write failed leaves its id in agreement if and only if it was not delivered, was refused, changed nothing shown, or a queued operation names the id |
| SceneExactness.UnsentAgreesExactly | apps/control-model/EasyControlViewModel.cs:1190-1194 | an online upsert that the encoder refuses leaves its id in agreement if and only if it changed nothing shown |
| SceneExactness.AddIsAnEdit | apps/control-model/EasyControlViewModel.cs:1157-1216 | an accepted and saved add is an edit of one id in the sense of the equivalences above |
| SceneExactness.RemoveIsAnEdit | apps/control-model/EasyControlViewModel.cs:2219-2288 | so is a removal |
| SceneExactness.QueuedAgrees | apps/control-model/EasyControlViewModel.cs:2084-2097 | an edit that reaches the queue brings its id back into agreement, whatever was lost before |
| SceneExactness.EvictionAgreesExactly | apps/control-model/EasyControlViewModel.cs:2293-2298 | dropping the oldest operation changes an id's replay if and only if only it named the id, to another effect than the engine shows |
| SceneLimits.StaleReplayLosesAScene | src/hub/src/scene_catalog.cpp:75 | a run from the start: six offline edits reach the full engine while no save of the flush succeeds, and the restart that sends them again costs a scene the engine had |
| SceneLimits.StaleFileRevertsALaterEdit | apps/control-model/EasyControlViewModel.cs:2360-2361 | an ignored save failure during a flush lets a restart undo a later confirmed edit |
| SceneLimits.CancelledSendIsOvertaken | apps/control-model/EasyControlViewModel.cs:2626-2631 | a cancelled send stays connected, and the next edit overtakes the queued one |
| SceneLimits.EngineRestartForgets | apps/control-model/EasyControlViewModel.cs:2399-2405 | a reconnect sends only queued operations, so a restarted engine stays without the scenes |
| SceneLimits.LongIdNeverArrives | apps/control-model/EasyControlViewModel.cs:2347-2352 | an id of 27 to 31 bytes is accepted, saved and then dropped |
| SceneLimits.FailedQueueWriteLeavesTheEngineAhead | apps/control-model/EasyControlViewModel.cs:1195-1204 | rolling an edit back after the engine applied it leaves the engine ahead |
| SceneLimits.OverflowLosesTheOldest | apps/control-model/EasyControlViewModel.cs:2293-2298 | a run of 65 offline edits from the start, after whose replay the scene that only the oldest operation named is missing |
| SceneLimits.OverflowingRemovalCostsAnotherScene | src/hub/src/scene_catalog.cpp:75 | a run from the start that fills the engine and then drops a queued removal, so that a scene whose own operations were never dropped is refused |
| SceneCatalog.EncodableExactly | apps/control-model/IpcProtocol.cs:669-715 | an operation the queue accepts reaches the engine if and only if it is a removal or its id has at most 26 bytes |
| SceneCatalog.CardsGiveValidOps | apps/control-model/CustomSceneSyncQueue.cs:197-223 | a valid card gives an operation the queue accepts exactly for a valid output group |
| SceneCatalog.Utf16LengthOfFirst | apps/control-model/CustomSceneCatalog.cs:200 | the bound on descriptions counts one for each character of well-formed text, and two for those of four bytes |
| SceneCatalog.PlacedInTable | apps/control-model/CustomSceneCatalog.cs:28-40 | the list update stores the card under its id and nothing else |
| SceneCatalog.DroppedFromTable | apps/control-model/CustomSceneCatalog.cs:42-49 | the list removal drops that id and nothing else |
| SceneCatalog.CustomSceneCatalog.Upsert | apps/control-model/CustomSceneCatalog.cs:28-40 | replaces in place or appends, refuses the invalid and the 33rd |
| SceneCatalog.CustomSceneCatalog.Load | apps/control-model/CustomSceneCatalog.cs:138-156 | replaces the list exactly when the whole candidate is valid, unique and within 32 |
| SceneQueue.CustomSceneSyncQueue.Enqueue | apps/control-model/CustomSceneSyncQueue.cs:33-42 | keeps the newest 63 and appends, or refuses and changes nothing |
| SceneQueue.Requeued | apps/control-model/EasyControlViewModel.cs:2059-2072 | re-queueing the pending operations gives exactly them, or fails when one is invalid |
| SceneViewModel.SceneSynchroniser.AddCustomScene | apps/control-model/EasyControlViewModel.cs:1157-1216 | is the machine's add; it answers done if and only if the card is accepted and saved and the engine confirmed or, offline, the replay is on disk, and it throws if and only if a saved edit is sent that cannot be encoded |
| SceneViewModel.SceneSynchroniser.RemoveCustomScene | apps/control-model/EasyControlViewModel.cs:2219-2288 | is the machine's removal; it answers done if and only if the scene was known, its removal saved, and confirmed or, offline, queued on disk; it never throws |
| SceneViewModel.SceneSynchroniser.TryPersistOfflineSceneOp | apps/control-model/EasyControlViewModel.cs:2084-2097 | queue and file both take the operation, or the queue and its drop count are as before |
| SceneViewModel.SceneSynchroniser.RestoreCustomSceneMirror | apps/control-model/EasyControlViewModel.cs:2103-2116 | the mirror is back to its table before the edit, and the card file too if the write succeeds |
| SceneViewModel.SceneSynchroniser.EnqueueSceneCatalogOp | apps/control-model/EasyControlViewModel.cs:2290-2306 | the trimming loop is the machine's eviction |
| SceneViewModel.SceneSynchroniser.FlushPendingSceneCatalogOps | apps/control-model/EasyControlViewModel.cs:2331-2367 | the replay loop is the machine's flush, and reports success exactly when nothing is left |
| SceneViewModel.SceneSynchroniser.LoadCustomScenes | apps/control-model/EasyControlViewModel.cs:1960-1976 | loading cards then queue is the machine's restart |
| PeqCompiler.Select | apps/control-model/CalibrationModel.cs:395-418 | the repeated search for the largest free error selects what one pass over the candidates sorted by falling error keeps |
| PeqCompiler.FindLoudest | apps/control-model/CalibrationModel.cs:398-414 | the earliest candidate of largest error among those neither chosen nor near a chosen one, or none exactly if there is none |
| PeqSelection.LoudestIsNext | apps/control-model/CalibrationModel.cs:395-418 | choosing the loudest free candidate does not change what the sorted pass will keep |
| PeqSelection.SelectionIsGreedy | apps/control-model/CalibrationModel.cs:377-418 | the selection is within the cap, above the threshold, loudest first, pairwise spaced, and every candidate left out is near one at least as loud or shut out by a full cap of louder ones |
| PeqSelection.SmallerCapSelectsAPrefix | apps/control-model/CalibrationModel.cs:396 | the selection for a smaller cap is a prefix of that for a larger one |
| PeqCompiler.FiltersAreValid | apps/control-model/CalibrationModel.cs:421-441 | filters rise strictly in frequency, are all valid, and are at most as many as the policy allows |
| PeqCompiler.FiltersNeverOvershoot | apps/control-model/CalibrationModel.cs:424-434 | a filter sits at a point above the threshold, and what it leaves there has the same sign and is no larger |
| PeqCompiler.LimitedExactly | apps/control-model/CalibrationModel.cs:420-439 | no limitation is reported if and only if every point above the threshold has a filter at its frequency with the gain it asked for, to within 1e-12 dB |
| PeqCompiler.ValidateResponse | apps/control-model/CalibrationModel.cs:330-354 | true exactly for valid policies and 1 to 512 valid points in range with strictly rising frequencies |
| PeqCompiler.CompileBoundedPeqCorrection | apps/control-model/CalibrationModel.cs:356-442 | the loops compute the compiled result the lemmas are about |
| PeqCompiler.CompileMultiChannelBatch | apps/control-model/CalibrationModel.cs:283-328 | a batch succeeds only as a whole, channel by channel as on its own; a refusal returns nothing and names the first channel at fault |
| PeqCompiler.MaxCorrection | apps/control-model/CalibrationModel.cs:370-375 | the reported maximum bounds every correction and is reached |
| PeqPromises.FiltersCorrectTheirPoints | apps/control-model/CalibrationModel.cs:424-434 | every filter sits at a point off its target by more than the threshold; its gain is target minus measurement, held between the cut and boost limits, and its Q is held between the policy's |
| PeqPromises.FiltersAreSpaced | apps/control-model/CalibrationModel.cs:816-829 | each filter is at least the minimum spacing above the one before it |
| PeqPromises.PointsAreAnswered | apps/control-model/CalibrationModel.cs:395-418 | a point off by more than the threshold has a filter, or is nearer than the spacing to a point with one that is off at least as much, or the cap is used up by such points |
| PeqPromises.UnlimitedExactly | apps/control-model/CalibrationModel.cs:420-439 | no limitation is reported if and only if measurement plus filter gain meets the target, to within 1e-12 dB, at every point off by more than the threshold |
| PeqPromises.ResultIsExplained | apps/control-model/CalibrationModel.cs:356-442 | which of the four outcomes a result is, and that filters are missing only for invalid input and within the threshold |
| PeqPromises.LargestIsReported | apps/control-model/CalibrationModel.cs:370-375 | the reported maximum is how far some point is off, and no point is off by more |
| IpcCodec.DecodesWhatWasEncoded | apps/control-model/IpcProtocol.cs:91-152 | every envelope that can be encoded is decoded to itself |
| IpcCodec.DecodingIsCanonical | apps/control-model/IpcProtocol.cs:108-152 | accepted bytes are exactly those the encoder writes for the decoded envelope |
| IpcCodec.Encode | apps/control-model/IpcProtocol.cs:91-106 | the bytes written in place are the encoding |
| IpcCodec.ConcatenationIsReadBack | apps/control-model/IpcProtocol.cs:1563-1578 | concatenated frames are read back as those envelopes, in order |
| IpcCodec.OnlyFramesAreRead | apps/control-model/IpcProtocol.cs:1563-1578 | what is read as an envelope was a frame of exactly that envelope |
| IpcCodec.PipeStream.ReadExact | apps/control-model/IpcProtocol.cs:1588-1600 | fills the destination with the next bytes however reads are split, or fails at the end of the stream |
| IpcCodec.PipeStream.ReadFrame | apps/control-model/IpcProtocol.cs:1563-1578 | reads exactly the next frame of the stream, whatever the chunks |
| ControlPipe.AcceptedExactlyWhenNothingIsOwed | apps/control-model/IpcProtocol.cs:1542-1559 | an exchange for a new id is accepted if and only if no reply is owed |
| ControlPipe.AcceptedRepliesCarryTheRequestId | apps/control-model/IpcProtocol.cs:1555-1557 | accepted exactly when the reply that is read answers this id |
| ControlPipe.GapNeverShrinks | apps/control-model/IpcProtocol.cs:1542-1559 | the number of owed replies never goes down in any run |
| ControlPipe.CommandsAreCreditedWithTheirOwnAck | apps/control-model/EasyControlViewModel.cs:2589-2649 | in every run of events with ids used once, the last is credited if and only if it is a command whose own Ack was read while connected and nothing was owed, and then nothing was owed before the run or is owed after it |
| ControlPipe.SessionIdsAreWrittenOnce | apps/control-model/IpcProtocol.cs:1375-1379 | up to 2^64 different ids of one session put each id on a new connection once, as that theorem asks |
| ControlPipe.NothingIsCreditedAfterAnAbandonedExchange | apps/control-model/EasyControlViewModel.cs:2589-2649 | after one abandoned exchange no later command on the connection is credited |
| ControlPipe.ResendingIsCreditedWithTheAbandonedReply | apps/control-model/EasyControlViewModel.cs:2586-2587 | the same envelope sent again after being given up is credited with the old reply |
| ControlPipe.DegradesExactly | apps/control-model/EasyControlViewModel.cs:2589-2649 | with a new id the connection degrades if and only if a command or a loud query found the pipe broken or read a reply that was not its own, or a command's own reply was no Ack |
| ControlPipe.WireRecordsTheExchange | apps/control-model/IpcProtocol.cs:1542-1559 | an exchange puts its id on the wire unless it was cancelled before the write, and takes one reply off it exactly when it reads one |
| ControlPipe.DegradedStaysDegraded | apps/control-model/EasyControlViewModel.cs:2589-2649 | once not connected, no command goes out and no query restores the connection |
| ControlPipe.RequestSession.Create | apps/control-model/IpcProtocol.cs:1375-1379 | hands out the next id and advances the counter, wrapping at 64 bits |
| Decibels.RoundingError | apps/control-model/IpcProtocol.cs:1344-1354 | a level on the wire is within 1/131072 dB of the one written |
| Decibels.RoundingIsMonotone | apps/control-model/IpcProtocol.cs:1344-1354 | rounding half away from zero keeps the order of levels |
| Decibels.ReadingThenWritingIsExact | apps/control-model/IpcProtocol.cs:1344-1354 | a level that was read is written back unchanged |
| DeviceCatalogPayload.DecodingIsCanonical | apps/control-model/IpcProtocol.cs:940-1012 | an accepted device snapshot is byte for byte what the encoder writes for it |
| DeviceCatalogPayload.SnapshotIsReadBack | apps/control-model/IpcProtocol.cs:890-1012 | every encodable device snapshot is decoded to itself |
| DeviceCatalogPayload.EncodeSnapshot | apps/control-model/IpcProtocol.cs:890-938 | writes that layout in place, or refuses exactly what breaks the contract |
| DeviceCatalogPayload.TryDecode | apps/control-model/IpcProtocol.cs:940-1012 | the decoding loops with their padding and repetition checks are the decoder |
| RouteRulePayload.DecodingIsCanonical | apps/control-model/IpcProtocol.cs:441-501 | an accepted route-rule command is byte for byte what the encoder writes for it |
| RouteRulePayload.ReadBackExactlyWhenMatchersArePrintable | apps/control-model/IpcProtocol.cs:380-501 | an encoded command is decoded to itself, with its gain rounded, if and only if both matchers are printable |
| RouteRulePayload.UnprintableMatcherIsLost | apps/control-model/IpcProtocol.cs:407-411 | a concrete upsert that is encoded and refused on arrival |
| RouteRulePayload.EncodeCommand | apps/control-model/IpcProtocol.cs:380-439 | writes that layout in place, or refuses exactly what the encoder refuses |
| RouteRulePayload.TryDecode | apps/control-model/IpcProtocol.cs:441-501 | the padding scans and text checks are the decoder |
| ControlStatusPayload.DecodingIsCanonical | apps/control-model/IpcProtocol.cs:1192-1263 | an accepted status snapshot is byte for byte what the encoder writes for it |
| ControlStatusPayload.ReadBackExactlyWithinSlack | apps/control-model/IpcProtocol.cs:1145-1263 | an encoded status is decoded to itself, with its levels rounded, if and only if the rounded levels stay within 3276 steps |
| ControlStatusPayload.CappedVolumesSurvive | apps/control-model/RouteAndSafetyModel.cs:84-90 | a volume no louder than requested and allowed always stays valid on the wire |
| ControlStatusPayload.SlackAloneDoesNotSurvive | apps/control-model/RouteAndSafetyModel.cs:88-89 | requested 0, ceiling 0, effective 0.05 dB is valid, encoded and refused on arrival |
| ControlStatusPayload.EncodeStatus | apps/control-model/IpcProtocol.cs:1145-1190 | writes that layout in place, or refuses exactly what breaks the contract |
| ControlStatusPayload.TryDecode | apps/control-model/IpcProtocol.cs:1192-1263 | the decoding loops are the decoder |
| WireLayout.EnvelopeLayout | apps/control-model/IpcProtocol.cs:91-106 | the bytes of an envelope: "HIK1", version, type, payload length and request id at their offsets, least significant byte first, then the payload |
| WireLayout.FrameLayout | apps/control-model/IpcProtocol.cs:1563-1578 | a frame is the length of the envelope in four bytes, then the envelope |
| WireLayout.EnvelopeRefusals | apps/control-model/IpcProtocol.cs:108-152 | which of the six faults an envelope is refused for, the first one deciding |
| WireLayout.FrameRefusals | apps/control-model/IpcProtocol.cs:1563-1578 | a frame is refused for its length, for the end of the stream, or for its envelope, and what is left of the stream then |
| WireLayout.SnapshotHeaderLayout | apps/control-model/IpcProtocol.cs:890-938 | count and sequence of a device snapshot at their offsets, the rest of its header zero |
| WireLayout.DeviceEntryLayout | apps/control-model/IpcProtocol.cs:890-938 | device i fills the 416 bytes from 16 + 416 i: lengths, codes, default flag, zero-padded texts, format and sequence at their offsets |
| WireLayout.CommandNumbersLayout | apps/control-model/IpcProtocol.cs:380-439 | version, priority, gain, codes and sequence of a route-rule command at their offsets |
| WireLayout.CommandTextsLayout | apps/control-model/IpcProtocol.cs:380-439 | its five lengths and zero-padded texts at theirs |
| WireLayout.StatusHeaderLayout | apps/control-model/IpcProtocol.cs:1145-1190 | count, sequence and requested level of a status message at their offsets |
| WireLayout.StatusLevelsLayout | apps/control-model/IpcProtocol.cs:1145-1190 | its other levels, codes and generation at theirs |
| WireLayout.RouteEntryLayout | apps/control-model/IpcProtocol.cs:1145-1190 | route i fills the 224 bytes from 40 + 224 i: lengths, health code, action flag and zero-padded texts at their offsets |
| WavSource.LoopedBlocksAreTheCyclicStream | apps/engine-preview/engine_preview.cpp:594-653 | any number of looped blocks is the cyclic source stream without a seam |
| WavSource.CyclicFrameAt | apps/engine-preview/engine_preview.cpp:594-653 | frame k of a looped run is source frame (start + k) mod total |
| WavSource.PositionsCompose | apps/engine-preview/engine_preview.cpp:594-653 | the position after two blocks is the position after one block of both lengths |
| WavSource.ProgressIsFramesEmitted | src/hub/include/hibiki/wav_source_progress.hpp:15-38 | the progress counter equals the frames emitted, whatever the wraps |
| WavSource.ProgressSaturates | src/hub/include/hibiki/wav_source_progress.hpp:15-38 | more frames than 64 bits can count are reported as the largest count |
| WavSource.ImpossibleProgressIsNothing | src/hub/include/hibiki/wav_source_progress.hpp:15-38 | positions outside the file, or going back without a wrap, count nothing |
| WavSource.WavFileSource.FillBlock | apps/engine-preview/engine_preview.cpp:594-640 | a block is the next cyclic frames, or without looping the remaining frames and silence; the loop-wrap break is never taken |
| WavSource.WavFileSource.Render | apps/engine-preview/engine_preview.cpp:594-665 | position, progress and activity after a block |
| Utf8.TruncatePrefix | apps/engine-preview/engine_preview.cpp:950-970 | on any bytes a prefix within the bound; on well-formed text the longest well-formed one |
| Utf8.NoCutInside | apps/engine-preview/engine_preview.cpp:950-970 | no well-formed prefix of well-formed text ends inside a character (section 3 of RFC 3629) |
| DeliverySlots.SyncIsComplete | apps/engine-preview/engine_preview.cpp:829-886 | active slots hold distinct planned keys, matching slots are untouched, and a planned key without a slot failed to start in this pass or found every slot active or tried |
| DeliverySlots.SyncReachesThePlan | apps/engine-preview/engine_preview.cpp:829-886 | when every start succeeds and the plan fits, the slots run exactly the plan |
| DeliverySlots.SyncIsIdempotent | apps/engine-preview/engine_preview.cpp:829-886 | synchronising again with a running plan changes nothing |
| DeliverySlots.SyncedSlot | apps/engine-preview/engine_preview.cpp:829-886 | slot by slot: a planned running one stays; otherwise it is taken for a planned source whose start succeeded, or stopped with its label kept, or it was free and stays free |
| DeliverySlots.ProcessDelivery.Sync | apps/engine-preview/engine_preview.cpp:829-886 | the loops over the slot array are that synchronisation |
| TabBridge.EveryRunIsOrderly | extensions/offscreen.js:50-117 | in every run at most one timer is pending and one socket live, exhaustion leaves no timer, and a capture past its acquisition whose reported state is retrying has a socket if and only if its start was not abandoned |
| TabBridge.ProgressesExactly | extensions/offscreen.js:168-176 | a capture past its acquisition has a socket, a due retry or exhausted retries if and only if its start did not fail in the context's constructor with no user action since |
| TabBridge.AbandonedStartIsStuck | extensions/offscreen.js:170-176 | after such a failure nothing but a new start, a stop or a manual retry changes anything, and the reported bridge state stays retrying without socket or timer |
| TabBridge.BackoffIsBounded | extensions/offscreen.js:92-107 | in every run, since a capture began, a socket opened or a manual retry was taken, there were retry delays of at most 105 s and at most 11 sockets, or 12 if a manual retry was ever taken while a stream was being acquired |
| TabBridge.BackoffBoundsAreReached | extensions/offscreen.js:92-107 | runs that reach these bounds, with 11 and with 12 sockets |
| TabBridge.OpenStartsTheBackoffOver | extensions/offscreen.js:74-84 | a bridge that opens and closes is retried after 1000 ms as the first attempt, however far the backoff had got |
| TabBridge.ManualRetryStartsTheBackoffOver | extensions/offscreen.js:145-153 | a manual retry connects at once, and the first failure after it waits 1000 ms |
| TabBridge.StartsAndStops | extensions/offscreen.js:168-206 | a start that goes well leaves one socket connecting or a first retry due, and a stop then leaves no socket, timer or heartbeat |
| TabBridge.StaleForever | extensions/offscreen.js:72-79 | a socket that was replaced or torn down never matters again |
| TabBridge.StepKeepsInvariant | extensions/offscreen.js:66-246 | every event keeps the machine's invariant |
| TabBridge.OffscreenBridge.ScheduleBridgeRetry | extensions/offscreen.js:92-107 | is the machine's scheduling step |
| TabBridge.OffscreenBridge.OnClose | extensions/offscreen.js:78-84 | is the machine's close event |
| TabBridge.OffscreenBridge.RetryTabBridge | extensions/offscreen.js:145-153 | is the machine's manual retry, accepted exactly while capturing and not connected |
| TabBridge.OffscreenBridge.TeardownCaptureGraph | extensions/offscreen.js:224-241 | leaves no timer, socket or heartbeat of the capture |
| CaptureLifecycle.ReleaseNeverClosesACapture | extensions/service-worker.js:41-51 | over every interleaving in which a worker is replaced only while no start is in the document, an answered release or stop closes only a document with no capture and no start under way, and a document is created only when there is none |
| CaptureLifecycle.AnsweredReleaseIsUnsafeExactly | extensions/service-worker.js:41-51 | after any run at all, an answered release query can be followed by closing a capture if and only if at the answer there is no context but a start in the document |
| CaptureLifecycle.StartsAreAwaited | extensions/service-worker.js:24-29 | a start is queued or running in the document exactly while the worker waits for it |
| CaptureLifecycle.CapturesEndOnlyByStopOrSilence | extensions/service-worker.js:31-51 | a closed document that was capturing was closed by an unanswered stop or an unanswered query |
| CaptureLifecycle.EndedSourceSparesLaterCaptures | extensions/offscreen.js:214-222 | a stream that is over never plays again, so its queued source-ended operation never touches the capture that replaced it |
| CaptureLifecycle.RestartedWorkerClosesAStartingCapture | extensions/service-worker.js:1-7 | a concrete interleaving in which a replaced worker is about to close a capturing document |
| CaptureOutcomes.StopLeavesNoDocument | extensions/service-worker.js:31-39 | a stop, whatever happens meanwhile and whichever of its calls fail but the close, ends with no document |
| CaptureOutcomes.StopAsksFirst | extensions/service-worker.js:31-39 | a stop whose calls succeed closes the document only after it has answered and torn its capture down |
| CaptureOutcomes.ReleaseLeavesNoIdleDocument | extensions/service-worker.js:41-51 | a release ends with no document, unless there was a capture or a start and a capture is there at the end |
| CaptureOutcomes.EndedSourceAsksForRelease | extensions/offscreen.js:214-222 | a source that ends ends its capture and asks the worker for a release, if the message gets through |
| CaptureOutcomes.EndedTrackIsNoticed | extensions/offscreen.js:184-188 | the end of a track is queued if and only if its stream is the one playing |
| CaptureOutcomes.EndedSourceClosesTheDocument | extensions/service-worker.js:41-51 | with the worker at rest that release leaves no document |
| CaptureOutcomes.StartEndsPlaying | extensions/service-worker.js:24-29 | a start taken from rest after any safe run, with all calls succeeding, ends with a stream playing |
| CaptureOutcomes.StartPlaysOrIsUndone | extensions/offscreen.js:168-206 | a start in the document plays a new stream if its three awaits succeed, and whichever fails first, nothing is captured and the worker has its answer |
| CaptureOutcomes.FailedCallEndsTheStart | extensions/service-worker.js:9-29 | a start of which a call of the worker fails is over and has left nothing behind |
| CaptureOutcomes.NothingToClose | extensions/service-worker.js:31-51 | without a document a stop or a release is over at its check, and a close that fails leaves the document |
| CaptureOutcomes.DeathEndsTheWaiting | extensions/service-worker.js:24-39 | a document that dies takes its capture along and releases the worker that waits for it |
| CaptureOutcomes.EveryOperationEnds | extensions/service-worker.js:1-7 | after any safe run, successful steps of the two sides bring the worker to rest |
| CaptureOutcomes.RequestsAreServedInOrder | extensions/service-worker.js:1-7 | over every run of one worker, what waits is what was asked, in order, without what was taken up |
| CaptureOutcomes.ReplacedWorkerStartsAfresh | extensions/service-worker.js:1-7 | a replaced worker has an empty queue, and no answer to the old one resumes it |
| RouteRules.RunKeepsConsistent | apps/control-model/SessionRouteRuleCatalog.cs:64-89 | every history leaves the list strictly sorted with unique ids, bounded and valid |
| RouteRules.AcceptsExactly | apps/control-model/SessionRouteRuleCatalog.cs:64-89 | which changes are taken: a valid rule with a known id or room below 64, the removal of a known id, a clear, a document of at most 64 valid rules with distinct ids |
| RouteRules.HistoriesWithTheSameRulesAgree | apps/control-model/SessionRouteRuleCatalog.cs:260-266 | the list depends only on the set of rules, and so does every answer |
| RouteRules.ScanResolves | apps/control-model/SessionRouteRuleCatalog.cs:95-116 | on the sorted list the scan answers Applied, Ambiguous or NoMatch by the number of enabled matches of highest priority |
| RouteRules.ResolutionIsUnique | apps/control-model/SessionRouteRuleCatalog.cs:95-116 | exactly one answer fits the order-free definition |
| RouteRules.HitsExactly | apps/control-model/SessionRouteRuleCatalog.cs:294-304 | a rule takes a session if and only if it is enabled, its app id is blank or the session's, and its display matcher is blank or equals a piece of the session's name |
| RouteRules.UnsortedListsMislead | apps/control-model/SessionRouteRuleCatalog.cs:95-116 | without the sort the same scan reports an ambiguity that is not there |
| RouteRules.SessionRouteRuleCatalog.TryResolve | apps/control-model/SessionRouteRuleCatalog.cs:95-116 | the loop gives the order-free answer for the live list |
| RouteRules.SessionRouteRuleCatalog.Load | apps/control-model/SessionRouteRuleCatalog.cs:200-224 | replaces the list exactly when the candidate is complete, valid and free of repeated ids |
| RouteRules.SessionRouteRuleCatalog.Upsert | apps/control-model/SessionRouteRuleCatalog.cs:64-78 | stores the rule under its id and restores the order, or changes nothing |
| DeviceCatalog.RunKeepsConsistent | apps/control-model/ControlModel.cs:77-228 | every run keeps ids unique, at most 32 devices, one active default per flow, and a sequence that never drops |
| DeviceCatalog.UpsertDisplacesOneDefault | apps/control-model/ControlModel.cs:94-121 | an upserted default displaces the default of its own flow and no other |
| DeviceCatalog.MarkDefaultMovesOneDefault | apps/control-model/ControlModel.cs:183-197 | marking a default makes it the only render default and leaves capture alone |
| DeviceCatalog.ScanMeansDistinct | apps/control-model/ControlModel.cs:123-150 | the snapshot check passes exactly for distinct ids and at most one default per flow |
| DeviceCatalog.SetAvailabilitySetsOneDevice | apps/control-model/ControlModel.cs:152-181 | an accepted call gives that device the availability and the larger sequence, keeps it a default only while active, and leaves its other fields and every other device alone |
| DeviceCatalog.UpsertSetsOneDevice | apps/control-model/ControlModel.cs:94-121 | an accepted upsert stores the device; another one changes only by losing its default to a new default of its flow |
| DeviceCatalog.MarkDefaultSetsOneDevice | apps/control-model/ControlModel.cs:183-197 | an accepted mark makes one active render device the default with the larger sequence; another one changes only by losing its render default |
| DeviceCatalog.RemoveAndReplaceSetDevices | apps/control-model/ControlModel.cs:123-150 | a removal takes one device away; an accepted snapshot becomes the list, with the larger sequence |
| DeviceCatalog.AcceptsExactly | apps/control-model/ControlModel.cs:94-200 | which calls are accepted: on a known device, or a new one with room, that are not older than it |
| DeviceCatalog.RunOneMore | apps/control-model/ControlModel.cs:94-200 | a history extended by one call is extended by one step, and by none if the call is rejected |
| DeviceCatalog.EveryHistoryIsOrderly | apps/control-model/ControlModel.cs:77-228 | after every history from the empty catalog: at most 32 devices with distinct ids and bounded texts, defaults active and at most one per flow |
| DeviceCatalog.PhysicalDeviceCatalog.Upsert | apps/control-model/ControlModel.cs:94-121 | the new state of an accepted call, and none of it changed by a rejected one |
| DeviceCatalog.PhysicalDeviceCatalog.ReplaceSnapshot | apps/control-model/ControlModel.cs:123-150 | replaces list and sequence exactly when the snapshot is acceptable |
| DeviceCatalog.PhysicalDeviceCatalog.SetAvailability | apps/control-model/ControlModel.cs:152-181 | the new state of an accepted call, and none of it changed by a rejected one |
| DeviceCatalog.PhysicalDeviceCatalog.MarkDefault | apps/control-model/ControlModel.cs:183-197 | likewise |
| DeviceCatalog.PhysicalDeviceCatalog.ClearDefaults | apps/control-model/ControlModel.cs:202-211 | clears the defaults of one flow except one endpoint's, in place |

## Left out

- Named pipes, files, JSON, sockets, WASAPI and browser calls are steps that succeed or fail; the outcome is a parameter. A file is the value last written to it.
- Cancellation in the middle of a frame, which desynchronises the pipe, and a crash between the card write and the queue write of one edit. Operations of the view model run one at a time.
- Doubles are reals: rounding, infinities and NaN of levels, frequencies and gains are not modelled.
- Text is UTF-8 bytes. Unpaired surrogates, trimming of ids and selection of the active scene are not represented; missing objects only where an `Option` says so.
- Comparison of texts ignoring case is a parameter of the resolver.
- PeqCompiler.Policy holds the spacing as the ratio 2^octaves, so the default of 1/12 octave is not a literal of the model; the policy is always given. The Q before its clamp is a parameter.
- SceneSync.EveryRunAgrees: speaks of name, IR reference and live flag; a card's description, its label and the output group of an operation are not part of the engine's side here. Every definition the encoder produces passes the engine's own validation, and acknowledged commands are taken as applied in order.
- SceneSync.EngineRestartKeeps: what a restarted engine stored elsewhere is not part of this model.
- Bulk scene import and the in-memory upsert helper, which never enqueue, and loading a damaged card or queue file at start-up.
- CaptureLifecycle: the asynchronous functions are state-machine steps between awaits, on values, not a class; a message that is answered neither way is a failed step. A replaced worker forgets a createDocument or closeDocument call it has already issued, so that such a call taking effect later is not represented.
- TabBridge: packets, audio graph objects and reported counters; only what decides about sockets, timers and the heartbeat.
- ControlPipe.CommandsAreCreditedWithTheirOwnAck: each envelope is written once, with an id new to the connection; the counterexample beside it shows why.
- Utf8.TruncatePrefix: on ill-formed bytes only the bound and the prefix are stated, as nothing more is promised for them.
- Session catalog snapshots, IR preparation, device switch, EQ snapshots, calibration import and the target curves, text exporters.
- Route-rule import from a file and its roll-back, the listening-dose fold, device switching, VST3 hosting, drivers and installers.
- DeliverySlots.SyncIsComplete: the process-tree flag of a plan entry, and the return without any change when no plan can be copied.
- PeqCompiler.CompileBoundedPeqCorrection: an absent response or policy; the type of a filter, which is always peaking.
- The audio engine behind the lanes, the resampler and the route coordinator; the plan of capture sources and each start's success are parameters.
- User interface code and status texts.
