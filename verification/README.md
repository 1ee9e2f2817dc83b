# Verified model of the JetKVM controller's core

A Dafny model of the parts of the repository whose correctness is hardest to see by
reading, with proofs. `dafny verify dfyconfig.toml` checks everything.

- **H.264 receive path.** `Rtp` has the shared values; `DepacketizerSpec` states the depacketizer as functions,
  `Depacketizer` runs it in place, `Packetizer` is the sending side of RFC 6184 and proves
  that `assemble` inverts it. `PictureRun` follows one picture through every arrival order with
  duplicates, `CarriedPicture` says which of its carriers come out. `Rbsp`, `Sps` and `SpsWriter`
  are the bit reader, the parameter-set parser and the writer of ITU-T H.264 sections 7.3.1,
  7.3.2.1.1 and 9.1 with their round trip; `AnnexBScan` is the scan of a whole access unit, and
  `Acceptance` says exactly which access units it accepts, and which of those `assemble` calls
  decodable; `AcceptanceRuns` writes some out.
- **Live pipeline.** `PipelineSpec` is the queue, the reference chain, the worker, resets and
  closing as steps, with the decoder an oracle; `Pipeline` runs the steps in place; `SyncPush`
  is the synchronous mode and says exactly when its guarantee is weaker, `SyncFailure` runs into
  it; `Await` is the waiter, over the states of either mode.
- **Operation ledger.** `Operation` is the stage machine, `Ledger` several processes over one
  table and one lock directory with crashes and recovery, `LedgerRuns` two of its runs, `Store` one
  process in place.
- **Input.** `HidProtocol` (reports and the host that reads them), `Keys` (US layout), `KeyNames`,
  `Coordinates`, `Actions` (compiling a batch), `Plans` (what executing consists of), `HostView`
  (what arrives), `HidSession` (the send barrier), `InputLease` (lease, executor, neutralization).
- **Automation.** `Automation` maps the outcome of an operation to its ledger stage.
- **Control.** `Control` is the per-device actor and the draining of all actors; `ControlRuns` are
  runs of it that end badly.
- **Configuration.** `Narrowing` and `Policy`: a narrowed configuration refines the original.

Where the source changes fields in place the model is a class; its methods are proved equal to,
or bounded by, functions on values, and the results are lemmas about those functions. Steps of
concurrent code are critical sections. What the environment decides (a failing send, a
cancelled context, a crash, another process) is an arbitrary choice, or a parameter where the
outcome is stated exactly.

## What the proofs found

- A picture of several carriers is emitted whole if and only if no suffix of its carriers was
  complete before (`CarriedPicture.EmittedWholeIff`); otherwise that suffix comes out and the head is
  dropped as late (depacketizer.go:135). For a picture that continues the stream the loss shows as a
  discontinuity exactly when there was a unit before or a loss already
  (`CarriedPicture.SuffixShowsLossIff`), so on a fresh stream it does not
  (`CarriedPicture.LateHeadOnFreshStream`). The chain theorem is therefore stated on emitted units.
- Not every unit that `assemble` calls decodable is accepted by `validate`.
  `Acceptance.DecodableUnitAcceptedIff` is the exact condition for every emitted unit: besides size, number
  and kinds of NAL units, a keyframe needs both parameter sets in band, whole and in order, or none in band
  and good ones known; any other picture needs none in band and a stream of a size the decoder knows.
  `AcceptanceRuns.DecodableYetRefused` writes out a keyframe with one set in band and a dependent picture
  with one: both decodable (depacketizer.go:298), both refused (stream_validate.go:48, 58, 78).
- Synchronous `Push` keeps the chain sound exactly until the decoder fails: after a failure the
  next dependent picture is still decoded (`SyncPush.PushSoundIffNotRisky`; a run is
  `SyncFailure.FailedReferenceIsUsed`). Nothing outside tests calls synchronous `Push`.
- A crash after `transport_accepted` is never recovered (`Ledger.AcceptedIsNotRecovered`; a run is
  `LedgerRuns.AcceptedStays`).
- A commit of `send_started` that is applied but reported as an error gives its lock back: another
  process can recover the operation while the first one lives, which was told not to send
  (`LedgerRuns.UnansweredIsRecovered`, store.go:247-256, 308-311).
- Scaling a coordinate is exact if and only if its 64-bit product does not wrap, and up to 32768
  pixels every pixel is recoverable; beyond that two neighbours collide (`Coordinates`).
- A drag carries no expiry: once compiled it runs however old its observation has become, unlike
  every other pointing action (`Actions.OnlyDragsOutliveTheirObservation`, actions.go:191-207).
- Three effects of a concurrent `Fence` on `input.Manager` alone: nothing in the program calls `Fence` or
  `AdvanceGeneration`, only tests do, so the service meets none of them (its sessions are modelled
  without a `Fence`, and completed means that every action ran). A `Fence` between a lease's validity check and the
  registration of its batch, and nothing else, leaves a receipt that says accepted with an error beside
  it while nothing ran (executor.go:81-83). A `Fence` between `Acquire` and the check, and nothing else,
  leaks the lease (executor.go:46-48), and `Reconcile` then stays refused. A `Fence` while `Reconcile` or
  `AdvanceGeneration` neutralizes is forgotten exactly if the neutralization succeeds (lease.go:199-206).
  See `InputLease.Manager.RunActions`, `InputLease.Manager.Reconcile`.
- Closing a session sends no neutral frames once a release succeeded, whatever batches did since
  (session.go:143): the host is then left released exactly if it was (`Automation.Session.Close`), and a
  keypress that loses its channel after the press leaves the key down (`Automation.CloseLeavesKeysHeld`).
- A session that fails to open, with a lock that then cannot be given back, leaves the lock held with
  no handle to it: kept by the actor after `reconnect` (actor.go:292-296), forgotten altogether after a first
  `open` (actor.go:150-154). `Control.Actor.Reconnect` and `Control.Actor.OpenFresh` say exactly when. No
  command ever gives such a lock back and every later `open` fails (`ControlRuns.FirstOpenStrandsLock`);
  `Drain` reports no error and leaves exactly these locks held (`Control.Registry.PerformDrain`,
  `ControlRuns.DrainLeavesLock`).
- `close` of a handle that a failed `reconnect` fenced only reads the history and leaves the session
  open (`ControlRuns.CloseLeavesSession`, actor.go:335-341). `reconnect` does not look at the deadlines
  (`ControlRuns.ReconnectAfterExpiry`, actor.go:255-326).
- Normalizing a key name leaves exactly its letters, so that separators and case do not matter, if and
  only if trimming takes nothing but spaces off it (`KeyNames.NormalizedIsLettersIff`): a tab at the end is
  dropped, but not before a hyphen (`KeyNames.HyphenAfterTab`).

## Model

| member | source | states |
|---|---|---|
| `Rtp.SignedDifference` | internal/video/depacketizer.go:83-86 | the 32-bit signed difference is congruent to the real one and in range |
| `DepacketizerSpec.RunLength` | internal/video/depacketizer.go:141-166 | the run of consecutive packets ending at the marker is maximal, across sequence wrap |
| `DepacketizerSpec.PayloadBytesInsert` | internal/video/depacketizer.go:101-112 | one more distinct packet adds exactly its payload bytes |
| `DepacketizerSpec.PushKeepsBuffered` | internal/video/depacketizer.go:71-139 | buffered bytes equal the sum of the buffered packets and stay within both limits; emitted units stay within the unit limit |
| `DepacketizerSpec.PushContinues` | internal/video/depacketizer.go:82-138 | an emitted unit without discontinuity starts right after the last one; time strictly advances; nothing else moves the fence |
| `DepacketizerSpec.PushParameterSets` | internal/video/depacketizer.go:172-300 | cached parameter sets are never lost by a push, and decodable units have them |
| `DepacketizerSpec.AllGrow` | internal/video/depacketizer.go:202-268 | assembling payloads only appends, within the unit limit, on every path |
| `Depacketization.OrderedPackets` | internal/video/depacketizer.go:141-170 | the sort and its gap checks find exactly the run ending at the marker |
| `Depacketization.Depacketizer.Reset` | internal/video/depacketizer.go:56-67 | everything but the cached fence values is cleared for the new generation; generation 0 is refused |
| `Depacketization.Depacketizer.AppendPayloads` | internal/video/depacketizer.go:202-271 | the payload loop computes the assembly of all payloads |
| `Depacketization.Depacketizer.AppendUnits` | internal/video/depacketizer.go:216-233 | the aggregation loop computes the assembly of its units |
| `Depacketization.Depacketizer.Assemble` | internal/video/depacketizer.go:172-300 | the emitted unit and the cached parameter sets are those of the specification |
| `Depacketization.Depacketizer.Push` | internal/video/depacketizer.go:71-139 | the in-place push is the specified step, with the same refusals |
| `Depacketization.Depacketizer.StorePacket` | internal/video/depacketizer.go:101-138 | buffering one packet, completing and resetting as specified |
| `Packetizer.Transparent` | internal/video/depacketizer.go:179-268 | for any mix of single, aggregated and fragmented packets of RFC 6184 the assembly gains exactly the start-code-prefixed units |
| `Packetizer.AssembleInverts` | internal/video/depacketizer.go:172-300 | the emitted bytes are the units after nothing but the reused parameter sets; flags depend on the units alone |
| `Packetizer.ReusedPrefix` | internal/video/depacketizer.go:273-292 | no prefix without a keyframe or with both sets in band |
| `PictureRun.RunIsOrdered` | internal/video/depacketizer.go:141-170 | whenever exactly the packets from some start of a unit to the marker are held, they are found in sending order, wrapping or not |
| `PictureRun.GapIsUnordered` | internal/video/depacketizer.go:141-170 | with any other packets held nothing is completed |
| `PictureRun.RoomForAnother` | internal/video/depacketizer.go:105-110 | a picture within limits is never refused for size while it is collected |
| `PictureRun.UnitEnds` | internal/video/depacketizer.go:269-300 | numbers and time of the completed unit; its receive time is the earliest of the packets held |
| `PictureRun.HeldArrived` | internal/video/depacketizer.go:101-112 | for all arrivals exactly the packets that arrived are held |
| `PictureRun.HeldIsFirstCopy` | internal/video/depacketizer.go:101-112 | of a packet that came several times the first copy is held, with its own receive time |
| `PictureRun.EmittedAtFirstStop` | internal/video/depacketizer.go:71-170 | any picture, any order, duplicates with their own times, noise: one unit at most, by the push after which exactly such a run is held for the first time |
| `CarriedPicture.EmittedAsSuffix` | internal/video/depacketizer.go:71-300 | for any mix of carriers, the unit emitted is exactly the carriers from some carrier on, when they are complete for the first time |
| `CarriedPicture.EmittedWholeIff` | internal/video/depacketizer.go:71-300 | the whole picture is emitted by the completing arrival if and only if no suffix of carriers was complete before |
| `CarriedPicture.EmittedExactlyOnce` | internal/video/depacketizer.go:71-170 | a picture of one carrier is emitted exactly once and whole, by the arrival that completes it, in every order, with duplicates |
| `CarriedPicture.SuffixShowsLossIff` | internal/video/depacketizer.go:126-138 | a suffix shows the loss of its head exactly if a unit came before or loss was known |
| `CarriedPicture.LateHeadIsLost` | internal/video/depacketizer.go:87-100 | two single packets in reverse order: the second is emitted alone and the first dropped |
| `CarriedPicture.LateHeadOnFreshStream` | internal/video/depacketizer.go:71-139 | a concrete fresh stream on which this happens without a discontinuity |
| `Rbsp.RbspBits.constructor` | internal/video/sps_validate.go:15-30 | the reader holds the bytes without emulation prevention |
| `Rbsp.RbspBits.Read` | internal/video/sps_validate.go:32-42 | reads that many bits as a number, or fails for good |
| `Rbsp.RbspBits.Ue` | internal/video/sps_validate.go:44-53 | reads an unsigned Exp-Golomb code of at most 30 leading zeros |
| `Rbsp.RbspBits.Se` | internal/video/sps_validate.go:55-61 | reads a signed Exp-Golomb code |
| `Rbsp.UeRoundTrip` | internal/video/sps_validate.go:44-53 | every value up to 2^31-2 is read back from its code, and larger ones are refused |
| `Rbsp.SeRoundTrip` | internal/video/sps_validate.go:55-61 | every signed value in range is read back from its code |
| `Rbsp.StripInvertsProtect` | internal/video/sps_validate.go:15-30 | removing emulation prevention inverts inserting it |
| `Rbsp.CleanHasNoStartCode` | internal/video/stream_validate.go:26-39 | protected bytes contain no start code |
| `Rbsp.ReaderSeesPacked` | internal/video/sps_validate.go:15-42 | the reader of written and protected bits sees those bits |
| `Sps.ProductsAreExact` | internal/video/sps_validate.go:137-156 | every 64-bit product that can decide the outcome is exact: larger factors were refused before |
| `Sps.ReadScalingLists` | internal/video/sps_validate.go:87-106 | the nested loops consume exactly the scaling lists |
| `Sps.ReadOrderPart` | internal/video/sps_validate.go:110-135 | the picture-order part is accepted and consumed as specified |
| `Sps.ParseSpsBounds` | internal/video/sps_validate.go:66-157 | the in-place parser answers as the specification on every NAL unit |
| `SpsWriter.ScalingListsRoundTrip` | internal/video/sps_validate.go:87-106 | written scaling lists are skipped to their end |
| `SpsWriter.ParseInvertsPut` | internal/video/sps_validate.go:66-157 | reading a written parameter set gives its cropped size, id and colour, or that it is too large |
| `SpsWriter.SpsRoundTrip` | internal/video/sps_validate.go:15-157 | the same through bytes and emulation prevention, for every supported parameter set |
| `AnnexBScan.SplitInvertsAnnexB` | internal/video/stream_validate.go:25-45 | splitting what `assemble` appended gives the units back, for units as section 7.4.1 allows them |
| `AnnexBScan.ScanIsFold` | internal/video/stream_validate.go:25-86 | the interleaved scan is the unit rules applied in order; unsplittable data is refused |
| `AnnexBScan.StreamCheck.Check` | internal/video/stream_validate.go:8-98 | the in-place check answers and updates the stream as specified; errors and the end of the stream change nothing |
| `AnnexBScan.ParameterSetsAtMostOnce` | internal/video/stream_validate.go:46-61 | a second parameter set of a kind is always refused |
| `AnnexBScan.ReusedBesideInBandIsRefused` | internal/video/stream_validate.go:46-61 | a reused pair beside an in-band set is always refused |
| `AnnexBScan.WrittenIsProper` | internal/video/stream_validate.go:25-45 | what the writer makes of trailed bits is a unit that splitting gives back |
| `AnnexBScan.IdrPictureIsAccepted` | internal/video/stream_validate.go:8-98 | an IDR picture written by the standard is accepted and sets the stream to its size |
| `Acceptance.ParsedFits` | internal/video/sps_validate.go:137-156 | a parameter set that is accepted has a size within the limits |
| `Acceptance.ValidateIff` | internal/video/stream_validate.go:8-98 | any bytes at all are accepted exactly if they split into units of the accepted shape: among units that are passed over, parameter sets in order and IDR slices, or slices alone of a known size |
| `Acceptance.EmittedAcceptedIff` | internal/video/depacketizer.go:172-300 | for any carriers of units as section 7.4.1 allows them, and any cached sets: which units are decodable, that the cache stays as it should, and that the emitted unit is accepted exactly if front and units have that shape |
| `Acceptance.DecodableUnitAcceptedIff` | internal/video/depacketizer.go:269-300 | every decodable unit, keyframe or not, and the exact condition under which it is accepted, in terms of what arrived and what was cached |
| `Acceptance.DecodableAcceptedIff` | internal/video/stream_validate.go:46-86 | for a picture acceptable otherwise, with other units anywhere: decodable, and accepted exactly if its parameter sets agree (both whole or none for a keyframe; none, of a known stream, for another) |
| `Acceptance.UnfragmentedAcceptedIff` | internal/video/stream_validate.go:46-86 | with unfragmented parameter sets: a keyframe is accepted exactly if both kinds are in band or neither is, another picture exactly if neither is and the stream is known |
| `AcceptanceRuns.SliceHeadRoundTrip` | internal/video/stream_validate.go:70-71 | the check reads back the head of any written slice that is short enough |
| `AcceptanceRuns.SetBesideSliceIsRefused` | internal/video/stream_validate.go:46-80 | any good pair of cached sets and any slice with one of them before it: decodable, and refused |
| `AcceptanceRuns.DecodableYetRefused` | internal/video/stream_validate.go:46-80 | a keyframe and a dependent picture, byte by byte, that are decodable and refused |
| `AcceptanceRuns.FirstKeyframeIsAccepted` | internal/video/stream_validate.go:8-98 | the first keyframe of a stream, with nothing cached and both sets in band, is decodable and accepted |
| `PipelineSpec.StepKeeps` | internal/video/pipeline.go:88-234 | every step of receiving, decoding, resetting and closing keeps the chain invariant |
| `PipelineSpec.NoBrokenReferences` | internal/video/pipeline.go:88-180 | in every run each unit given to the decoder is a keyframe or directly continues, without a missed sequence number, the unit decoded before it |
| `PipelineSpec.BuffersBounded` | internal/video/pipeline.go:124-156 | in every run the queue has at most 32 units, its byte count is exact and bounded, and the packet buffer is too |
| `PipelineSpec.ObservationsAreCurrent` | internal/video/pipeline.go:145-234 | a published frame is of the current generation and chain; a break withdraws it |
| `Pipelines.Pipeline.PushLive` | internal/video/live.go:41-45 | the in-place receive is the specified step |
| `Pipelines.Pipeline.Admit` | internal/video/pipeline.go:118-142 | admission of a unit: break, discard, sync, bound, enqueue |
| `Pipelines.Pipeline.BreakChain` | internal/video/pipeline.go:147-156 | the chain number grows and everything queued or published goes |
| `Pipelines.Pipeline.Pop` | internal/video/live.go:69-81 | the worker takes the oldest unit and its bytes |
| `Pipelines.Pipeline.BeginDecode` | internal/video/pipeline.go:159-172 | a unit of another generation or chain never reaches the decoder |
| `Pipelines.Pipeline.ResetDecoder` | internal/video/pipeline.go:174-179 | the decoder is reset once per chain |
| `Pipelines.Pipeline.FinishDecode` | internal/video/pipeline.go:180-233 | output is published only for the current generation and chain and never goes back in time |
| `Pipelines.Pipeline.Settle` | internal/video/live.go:119-134 | a failed decode of the current chain breaks it |
| `Pipelines.Pipeline.BeginReset` | internal/video/pipeline.go:331-353 | the first part of a reset fences everything |
| `Pipelines.Pipeline.EndReset` | internal/video/pipeline.go:354-370 | the rest of a reset installs the generation or leaves the old one |
| `Pipelines.Pipeline.Close` | internal/video/pipeline.go:374-393 | closing drops the queue |
| `SyncPush.PushSoundIffNotRisky` | internal/video/pipeline.go:77-85 | a synchronous push stays sound if and only if it does not feed a dependent picture whose predecessor was not decoded |
| `SyncPush.PushHealth` | internal/video/pipeline.go:159-194 | a working decoder keeps the state healthy; a failed call inside a chain ends that |
| `SyncPush.SyncRunSound` | internal/video/pipeline.go:77-85 | with a decoder that never fails every synchronous run is sound: pushes, resets and a close in any order, also in the middle of a push |
| `SyncPush.SyncShowsCurrent` | internal/video/pipeline.go:145-393 | in every synchronous run of pushes, resets and a close a published frame is of the current generation and chain |
| `SyncFailure.FailureThenDependent` | internal/video/pipeline.go:77-85 | from any healthy state a failed call and then a dependent unit break the chain's soundness |
| `SyncFailure.FailedReferenceIsUsed` | internal/video/pipeline.go:77-85 | a concrete run from the start: keyframe, failed unit, next unit decoded on it |
| `Await.HistoryShowsCurrent` | internal/video/pipeline.go:145-393 | whatever a live or synchronous pipeline went through, resets and closing included, what it shows is of its generation and chain |
| `Await.AwaitObservation` | internal/video/pipeline.go:236-328 | over the states of any pipeline history: an observed frame is of the generation asked for and of the chain then current, fresh and not before the asked time |
| `Await.KeyframeRequests.Ask` | internal/video/pipeline.go:279-282 | keyframe requests of all waiters and the worker are closer than the interval only with a reset between them |
| `Await.KeyframeRequests.Reset` | internal/video/pipeline.go:369 | a successful reset makes the next request due at once and keeps the history of requests |
| `Await.RecoverIdle` | internal/video/live.go:82-98 | the idle worker asks only while the chain is broken |
| `Operation.TransitionLowersRank` | internal/operation/operation.go:210-232 | every legal transition strictly lowers the rank of the stage |
| `Operation.RetrySafeOnlyFromNotSent` | internal/operation/operation.go:235-283 | a legal patch is retry-safe, and says not sent, exactly when it leaves `not_sent` without sending |
| `Operation.MovesKeepRows` | internal/store/store.go:268-313 | a legal transition keeps a row consistent, and what recovery writes is itself a legal transition |
| `Ledger.StepKeepsRecord` | internal/store/store.go:184-372 | rows and history agree after every step |
| `Ledger.StepKeepsLocks` | internal/store/store.go:232-256 | every lock has a living holder that knows of it |
| `Ledger.StepKeepsGuard` | internal/store/store.go:232-256 | while the process that was told its send is committed lives, it holds the lock |
| `Ledger.RetainedSentAtMostOnce` | internal/store/store.go:232-314 | over every interleaving with crashes and recoveries, a retained operation entered `send_started` at most once, its rank fell at each transition, and it is retry-safe exactly if it never did |
| `Ledger.StepMovesLegally` | internal/store/store.go:257-372 | a step changes a row by one legal transition, or purges a terminal one |
| `Ledger.RetainedNeverResends` | internal/store/store.go:276-289 | while retained, an operation keeps its request and its one send time |
| `Ledger.RecoverySparesTheLiving` | internal/store/store.go:317-357 | recovery ends only operations that no living process was told to send, by a legal transition; an applied update leaves no held operation in `send_started`, a failed one changes nothing |
| `Ledger.AcceptedIsNotRecovered` | internal/store/store.go:318-345 | after `transport_accepted` no crash, restart, recovery or purge moves an operation |
| `LedgerRuns.AcceptedStays` | internal/store/store.go:232-357 | a run: accepted, crashed, restarted, recovered, and still accepted |
| `LedgerRuns.UnansweredIsRecovered` | internal/store/store.go:232-357 | a run without a crash: an unanswered commit of `send_started` is recovered by another process |
| `Ledger.TransitionIsThreeSteps` | internal/store/store.go:232-314 | the lock, the transaction and the give-back, undisturbed, are one transition, whether its commit is applied, lost or unanswered |
| `Store.Database.SelectInterrupted` | internal/store/store.go:318-334 | exactly the interrupted rows, each once |
| `Store.Store.Begin` | internal/store/store.go:184-224 | registers once, answers repeats with the stored receipt, refuses another digest; an error changes nothing unless the commit was applied unanswered |
| `Store.Store.Transition` | internal/store/store.go:232-314 | the row, the owned locks and the directory end as specified on every path, an applied commit reported as an error included |
| `Store.Store.RecoverInterrupted` | internal/store/store.go:317-357 | every listed row without a lock holder becomes ambiguous, every other row and lock stays, the count is exact, and an error comes exactly from a lock or an update that fails |
| `Store.Store.PurgeTerminalBefore` | internal/store/store.go:360-372 | removes exactly the old terminal rows and counts them |
| `Store.Store.Close` | internal/store/store.go:62-71 | gives back exactly the owned locks |
| `HidProtocol.KeyboardRoundTrip` | internal/input/protocol.go:43-53 | refused exactly beyond six keys, else read back as meant |
| `HidProtocol.PointerRoundTrip` | internal/input/protocol.go:67-81 | refused exactly outside 0..32767 or five buttons, else read back |
| `HidProtocol.RelativeRoundTrip` | internal/input/protocol.go:83-91 | refused exactly outside -128..127 or five buttons, else read back |
| `HidProtocol.NeutralFramesRelease` | internal/input/lease.go:311-315 | the three neutral reports release everything, whatever was held |
| `Keys.StrokeWritesRune` | internal/input/keys.go:163-196 | exactly printable ASCII has a stroke, and a US keyboard writes that character for it |
| `Keys.RuneFindsStroke` | internal/input/keys.go:163-196 | every stroke that writes something is the one chosen for it, but for Shift with Space |
| `Keys.CompileText` | internal/input/keys.go:91-108 | accepts exactly 1..4096 printable characters, all or nothing, and the strokes write the text |
| `Keys.CompileKeyCombo` | internal/input/keys.go:52-87 | accepts exactly chords without repetition and with at most six keys, keeping keys in order and all modifiers |
| `KeyNames.CompileNames` | internal/input/keys.go:52-87 | the same on spelled names, as the tables resolve them |
| `KeyNames.NormalizedIsLettersIff` | internal/input/keys.go:110-114 | normalizing leaves exactly the letters if and only if trimming takes nothing but spaces |
| `KeyNames.SpellingsAgree` | internal/input/keys.go:110-114 | such names of the same letters are the same key, whatever their case and separators |
| `KeyNames.SameNameIff` | internal/input/keys.go:110-114 | a respelling of such a name normalizes to the same name exactly if it is such a name too |
| `KeyNames.RespellingChangesNothing` | internal/input/keys.go:52-114 | respelling the names of a combination changes nothing |
| `KeyNames.HyphenAfterTab` | internal/input/keys.go:110-114 | a tab at the end of a name is dropped, but not before a hyphen |
| `KeyNames.NamesTypeThemselves` | internal/input/keys.go:116-180 | a letter or digit as a name is the key that types it, in either case |
| `Coordinates.ScaledIsNearestIffFits` | internal/input/actions.go:302-307 | the result is the nearest position, within 0..32767, if and only if the 64-bit product does not wrap |
| `Coordinates.ScaleIsMonotone` | internal/input/actions.go:302-307 | larger pixels never get smaller positions |
| `Coordinates.EndpointsMeet` | internal/input/actions.go:302-307 | the first pixel is 0 and the last 32767 |
| `Coordinates.PixelRecovered` | internal/input/actions.go:285-307 | up to 32768 pixels every pixel is recovered, also from the report that carried it |
| `Coordinates.PixelsCollide` | internal/input/actions.go:302-307 | beyond 32768 pixels two neighbours share a position |
| `Actions.BindAll` | internal/input/actions.go:196-202 | all points of a drag are bound, each on its own |
| `Actions.CompileAction` | internal/input/actions.go:162-246 | compiled fields, estimate and error of every action type as specified |
| `Actions.OnlyDragsOutliveTheirObservation` | internal/input/actions.go:162-213 | pointing actions compile on a fresh observation; a later one refuses all but drags, exactly when it is too old |
| `Actions.TotalsGrow` | internal/input/actions.go:147-156 | totals only grow, so a batch within its limits was within them at every action |
| `Actions.CompileBatch` | internal/input/actions.go:133-160 | the running checks accept exactly the batches acceptable as a whole and compile each action on its own |
| `Plans.CompiledIsWellFormed` | internal/input/actions.go:162-246 | no report of a compiled action can be refused as malformed |
| `Plans.PlanWithinEstimate` | internal/input/executor.go:109-226 | the waits of an action total at most its estimate |
| `Plans.BatchWithinEstimate` | internal/input/executor.go:84-106 | the waits of an accepted batch total at most its estimate and the batch limit |
| `Plans.RunWithinBudget` | internal/input/executor.go:84-106 | the same however far the batch got |
| `Plans.DefaultEstimatesFit` | internal/input/actions.go:133-160 | with the default limits no estimate or running total leaves 64 bits |
| `HostView.TextArrives` | internal/input/executor.go:143-150 | the host reads exactly the typed text and holds nothing afterwards |
| `HostView.PressArrives` | internal/input/executor.go:173-192 | a press holds the chord, writes its key, and is released |
| `HostView.HoldArrives` | internal/input/executor.go:268-305 | a hold keeps the chord down through all keepalives until its release |
| `HostView.ClickArrives` | internal/input/executor.go:194-202 | move, press there, let go, as read by the host |
| `HostView.DragArrives` | internal/input/executor.go:204-214 | the button is down along every point and let go at the last |
| `HostView.PlanReleases` | internal/input/executor.go:109-171 | any action that ran to its end on an idle host leaves it idle |
| `HidSession.HidTransport.CrossBarrier` | internal/automation/session.go:87-100 | the start runs once and its answer stands; crossed means `send_started` is committed |
| `HidSession.HidTransport.SendHid` | internal/automation/session.go:210-221 | nothing is transmitted without the crossed barrier; past it a send succeeds exactly if the device session takes it, and a success delivers the frame in order |
| `HidSession.HidTransport.SendWheel` | internal/automation/session.go:223-237 | the same barrier before a wheel call |
| `HidSession.HidTransport.FlushChannel` | internal/automation/session.go:239-244 | a success means the channel has drained |
| `HidSession.Record.Transition` | internal/store/store.go:232-314 | a transition among other callers': refused or applied to whatever the row became |
| `InputLease.Manager.Acquire` | internal/input/lease.go:154-173 | refused when uncertain, stale or busy, in this order; otherwise one fresh lease |
| `InputLease.Manager.Neutralize` | internal/input/lease.go:307-327 | all three frames and the flush are tried; success means nothing is held or on its way |
| `InputLease.Manager.Reconcile` | internal/input/lease.go:187-207 | unless refused the manager is uncertain afterwards exactly if neutralization failed, even with a `Fence` meanwhile; past the barrier it succeeds exactly if all four requests do |
| `InputLease.Manager.AdvanceGeneration` | internal/input/lease.go:211-232 | a newer generation is published exactly over a released host; a `Fence` meanwhile is forgotten then |
| `InputLease.Manager.Fence` | internal/input/lease.go:238-251 | latches uncertain for the current generation only |
| `InputLease.Calls` | internal/input/lease.go:154-381 | over any calls in any order, with leases old and new: once uncertain a manager stays so and asks for nothing but release until a `Reconcile` or an advance succeeds |
| `InputLease.NoLeaseWhileUncertain` | internal/input/lease.go:154-173 | so it gives no lease after any calls that did not clear it |
| `InputLease.Manager.RunActions` | internal/input/lease.go:177-183 | when nothing runs, when a lease is left behind and when an accepted receipt has an error: each exactly; after any batch the host is released or the manager uncertain |
| `InputLease.Lease.Execute` | internal/input/executor.go:109-171 | asks for a prefix of the action's plan, all of it when accepted; failed, fenced or expired means no frame of it was asked for; never malformed |
| `InputLease.Lease.SendPointer` | internal/input/executor.go:216-226 | the pointer is remembered only when it was sent |
| `InputLease.Lease.PressKeys` | internal/input/executor.go:173-192 | press, hold, release, pause, stopping at the first error |
| `InputLease.Lease.ClickAt` | internal/input/executor.go:194-202 | the three frames of a click, stopping at the first error |
| `InputLease.Lease.DragAlong` | internal/input/executor.go:204-214 | the frames of a drag, stopping at the first error |
| `InputLease.Lease.SendFrame` | internal/input/executor.go:228-233 | a frame goes out only for the active, unreleased lease of a manager that is not fenced |
| `InputLease.Lease.KeepAlive` | internal/input/executor.go:279-304 | no keepalive follows a gap of more than 100 ms |
| `InputLease.Lease.HoldKeys` | internal/input/executor.go:268-305 | press, flush, keepalives, release; a late keepalive ends the hold |
| `InputLease.Lease.ExecuteAll` | internal/input/executor.go:84-106 | an accepted prefix, at most one failure, then not started; the status follows |
| `InputLease.Lease.RunActions` | internal/input/executor.go:45-107 | receipts, status, errors, everything asked of the transport, released or uncertain, and the exact effect of a `Fence` before the first action |
| `InputLease.Lease.Release` | internal/input/lease.go:338-358 | neutralizes once; a failure latches the manager |
| `InputLease.Lease.Abandon` | internal/input/lease.go:370-381 | gives the lease back without a frame |
| `Automation.Session.RunActions` | internal/automation/session.go:159-180 | no frame before the commit of `send_started`; no failure exactly for an accepted batch, whose actions all ran; uncertain exactly after a failed release |
| `Automation.Session.ReleaseInput` | internal/automation/session.go:182-201 | the same barrier; success means released, and comes exactly if all four requests succeed |
| `Automation.Session.Close` | internal/automation/session.go:137-157 | a close that succeeds leaves the host released exactly if it neutralized or the host was released; after an earlier release it touches nothing |
| `Automation.CloseLeavesKeysHeld` | internal/automation/session.go:137-201 | a reachable run: released, a keypress cut off after its press, closed without an error with the key down |
| `Automation.RunActions` | internal/automation/service.go:184-294 | a retry-safe receipt or row means no frame was sent, on every path; completed means every action ran and the host was released |
| `Automation.FinishBatch` | internal/automation/service.go:240-294 | a new operation is completed only if its batch started and was not refused; a repeated one may be answered from the ledger |
| `Automation.ReleaseInput` | internal/automation/service.go:315-380 | a retry-safe receipt or row means no frame was sent, and such a receipt is terminal; completed means released |
| `Automation.PowerAction` | internal/automation/service.go:397-470 | a retry-safe receipt means the request was not made; the stage follows the device's answer |
| `Automation.FinishActionFailure` | internal/automation/service.go:722-743 | not started, partial and released, or ambiguous, each with its patch |
| `Automation.FinishPowerFailure` | internal/automation/service.go:745-766 | a refusal by the device counts as delivered, anything else as ambiguous |
| `Automation.FinishNotSent` | internal/automation/service.go:768-779 | cancelled or failed, retry-safe |
| `Control.ValidatedMatches` | internal/control/actor.go:408-435 | only a reference to the current ready handle validates, whatever the history holds |
| `Control.Actor.CloseSession` | internal/control/actor.go:465-490 | session first, lock second, handle last; succeeds exactly if both work, and a failure keeps the handle and the lock |
| `Control.Actor.ReleaseLock` | internal/control/actor.go:492-501 | a lock is released only with no session alive, and forgotten exactly if that worked |
| `Control.Actor.ExpireIfNeeded` | internal/control/actor.go:446-463 | afterwards a ready handle is before both deadlines |
| `Control.Actor.Open` | internal/control/actor.go:100-183 | sharing only brings deadlines closer; otherwise a greater generation with its own session under the lock; a stranded lock refuses every open |
| `Control.Actor.OpenFresh` | internal/control/actor.go:131-178 | succeeds exactly if lock and session are given; a failed session gives the lock back, or leaves it held by a holder nobody knows |
| `Control.Actor.Snapshot` | internal/control/actor.go:185-205 | shows and touches only a handle that is in time |
| `Control.Actor.Execute` | internal/control/actor.go:207-253 | a callback starts only before both deadlines, for the handle referred to, with its lock held and no foreign session |
| `Control.Actor.Reconnect` | internal/control/actor.go:255-326 | the exact condition of each outcome, deadlines not among them; after a failed open the lock is kept exactly if its release failed |
| `Control.Actor.CloseHandle` | internal/control/actor.go:328-356 | closes the current handle, or only looks up a past one and leaves session, lock and device |
| `Control.Actor.Shutdown` | internal/control/actor.go:364-387 | no error exactly if there was nothing to close or closing worked; then the lock is held exactly if it was stranded |
| `Control.Commands` | internal/control/actor.go:55-68 | over any commands generations grow, the invariants hold, stale references stay stale and stranded locks stranded |
| `Control.GoneStaysGone` | internal/control/actor.go:408-435 | a reference that stopped validating never validates again |
| `Control.NewRegistry` | internal/control/control.go:168-202 | accepts exactly positive, ordered durations after defaults |
| `Control.Checked` | internal/control/control.go:204-229 | what passes the argument checks of an open request |
| `Control.Registry.Open` | internal/control/control.go:204-235 | a refused request touches nothing, an accepted one its own device only; the handle's idle deadline is within its absolute one |
| `Control.Registry.PerformDrain` | internal/control/control.go:300-329 | no error exactly if every actor could close; then every session is closed and exactly the stranded locks are held |
| `ControlRuns.ReconnectAfterExpiry` | internal/control/actor.go:255-326 | a reconnect that succeeds long past both deadlines |
| `ControlRuns.FirstOpenStrandsLock` | internal/control/actor.go:148-158 | a first open that fails twice, after which no open ever succeeds |
| `ControlRuns.DrainLeavesLock` | internal/control/control.go:300-329 | a drain that reports no error while the lock is held |
| `ControlRuns.CloseLeavesSession` | internal/control/actor.go:328-356 | a close that reports success while the session stays open |
| `Narrowing.NarrowSelection` | internal/config/narrow.go:91-107 | the selection and exactly its violations |
| `Narrowing.NarrowDevices` | internal/config/narrow.go:33-81 | the loops together leave each device as its constraints ask and count exactly the violations |
| `Narrowing.Narrow` | internal/config/narrow.go:24-89 | succeeds exactly for permitted constraints with a valid result, which it returns |
| `Policy.Compile` | internal/policy/policy.go:69-113 | compiles exactly valid configurations with known tools and distinct exposed identities |
| `Policy.Evaluate` | internal/policy/policy.go:124-168 | allows exactly what rules, scope, device, permission and capability together allow, and gives the first reason against |
| `Policy.SelectionNarrows` | internal/policy/policy.go:180-198 | a narrowed selection selects what both the deployment and the process select |
| `Policy.DevicesNarrow` | internal/config/narrow.go:33-81 | exactly the kept devices remain, without new permissions or takeovers |
| `Policy.NarrowingRefines` | internal/config/narrow.go:10-89 | everything the narrowed policy allows the original allows, for every tool, scope, device and any device; never with a new takeover |
| `Policy.PolicyIsUnique` | internal/policy/policy.go:69-113 | a configuration that compiles has one policy, in whatever order its devices are visited |
| `Policy.UnconstrainedDecidesTheSame` | internal/config/narrow.go:10-89 | without constraints every decision is the deployment's own |

## Left out

- StartLive, wake-up channels and timers: no effect on the chain; a pipeline is live or synchronous from the start, and a waiter looks at the pipeline once per wake-up.
- The decoder itself, images and observation identifiers: the decoder is an oracle that yields a frame, nothing yet, or an error.
- SQLite, flock files and JSON: an atomic map, an exclusive lock table and opaque values; a commit is applied and answered, applied and reported as an error, or not applied. Times in the ledger are whole milliseconds.
- Identity pins and confirmations: yes-or-no answers of the environment; digests, random identifiers and nonces are opaque and distinct.
- Keys.CompileKeyCombo: starts from names already resolved; `KeyNames` resolves them. Text is a sequence of runes with a flag for invalid UTF-8, and a key name one of valid runes.
- Plans.CompiledIsWellFormed: for captured frames of at most 2^48 pixels each way, where scaling cannot wrap; `Coordinates.ScaledIsNearestIffFits` has the exact condition.
- InputLease.Lease.RunActions: for the same captured frames; a larger one could make a pointer report be refused.
- Plans.DefaultEstimatesFit: for the default limits; limits are otherwise unbounded, and durations of limits near 2^63 nanoseconds could wrap the estimate.
- Reliability of frames: the session's transport ignores it, so all frames share one ordered channel. A drained channel counts as delivered to the device; that the attached computer has acted is not claimed.
- Concurrent use of one session: the session's own mutex admits one operation at a time; only `Fence`, where a manager has a caller for it, interleaves with a batch.
- Control.Actor.Open: what `Registry.Open` establishes is its precondition; a mailbox full of commands is not modelled. A session factory that reports an error is taken to leave no session alive.
- Control.Registry.PerformDrain: shuts actors down one after another; they share nothing.
- Policy revision, transport, retention, credential, TLS and origin checks: narrowing does not touch them; `restValid` stands for their validity.
- WebRTC, signaling, HTTP, TLS, keyring, browser pages, MCP and CLI adapters, update and setup: network, user interface and thin wrappers.
