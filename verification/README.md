# Doorbell firmware: verified models

Dafny models of the parts of the doorbell firmware that carry state machines, in-place algorithms or
arithmetic, with proofs of what they promise. `dafny verify dfyconfig.toml` checks the whole project.

**Events, rings and recordings.** `StoreTables` holds the SQLite tables as maps and says what each committed
transaction does; `EventStore` is the class whose methods run those transactions statement by statement, with
any statement failing and the constraints of the schema enforced. `ReportProtocol` and `RecordingProtocol` are
the two protocols of the event processor as steps over queues, one-shot tokens, work in the hands of threads
and restarts; `DeviceEventProcessor` is the class, each method of which is proved to be steps of them.
`RingCoalescing` says which presses share an event, and `EventPaths` why no two names collide.

**Digest.** `Fips180` is SHA-256 by the sections of FIPS 180-4; `FileSha256` is the block-buffered class proved
equal to it.

**Detection.** `LockstepSort` is the hole-moving quicksort over two arrays, `PostProcess` greedy suppression and
the result list.

**Live stream.** `QualityProtocol` is quality switching raced by answer, RTP probe, watchdog, errors and stop, as
steps; `LiveWebRtcSession` the class with its fields; `DmaPool` the leased buffers; `Sdp` the two SDP scanners.

**Buffers, time and settings.** `DrawRectangle`, `Sntp`, `Playback`, and `DeviceSettingsStore` with
`Provisioning` for the settings command.

Where the firmware's workers interleave, a protocol module states the steps (each section under a mutex and each
store call is one) and proves its results for every interleaving; the class beside it is proved step by step
against the protocol. Clock readings, file system, network, kernel and database answers are parameters. Ghost
fields hold history and the work other threads have in hand; the code keeps neither.

## Findings

The proofs meet the code, so where a promise fails it is stated with the condition under which it holds:

- The scans for unreported rows at startup ignore errors, so a failing query loses reports until the next
  restart (`ReportProtocol.StartLosesNothingIff`, `FailedScanLosesReport`).
- A finalize job for a recording that is terminal, or never begun, is retried until the process ends
  (`RecordingProtocol.RetriedUntil`, `RetriedForever`; `FinalizedTwice` reaches one).
- The encoder is set up for the quality in force iff the last step that configured it worked and was not late
  (`QualityProtocol.BranchRightIff`); `LateReconfigureWins` is a run in which it was late.
- After a failed rollback the video stays paused iff nothing has let it run since the last pausing step
  (`FailedRollbackPausedIff`); `BrokenBranchMayStream` is a run in which an answer did.
- A probe confirms the switch it saw iff nothing was taken out in between (`ProbeConfirmsItsSwitchIff`);
  `WrongSwitchConfirmed` is a run in which it confirms the next one.
- A press past the deadline of its ring shares the old event when the checks since then have failed
  (`RingCoalescing.NewEventIff`).
- A negative time that is no whole second comes back from an NTP timestamp a second late (`Sntp.RoundTripIff`), so
  a faithful answer to it is refused (`EchoAcceptedIff`).
- `draw_rectangle` paints a ring for all non-negative sizes, and for negative ones only under the condition in
  `DrawRectangle.RingIff`.
- When the store and a rollback handler both fail, the running system keeps the refused setting
  (`Provisioning.InStepIff`, `LeftRunningOnce`).
- The 32-bit section counters are exact for texts below 34,359,738,383 characters (`Sdp.PairOfText`); that long is
  the shortest text that is misjudged (`WrappedCounterPasses`).

## Model

| member | source | states |
|---|---|---|
| FileSha256.DigestOfChunks | src/utils/file_sha256.cpp:48-87 | For every message below 2^61 bytes and every way of cutting it into `update` calls, the digest is the FIPS 180-4 digest of the whole message. |
| FileSha256.FileDigest | src/utils/file_sha256.cpp:157-193 | A file that opens and reads through gives the text of its FIPS 180-4 digest, the high half of each byte first, in digits 0 to 9 and a to f; a file that does not open and one whose reads fail give their two errors. |
| FileSha256.ReadThrough | src/utils/file_sha256.cpp:173-184 | The 64 KiB read loop hands every byte of the file to the calculator once, in order, also when the last read is empty. |
| FileSha256.HexText | src/utils/file_sha256.cpp:186-190 | Characters 2k and 2k + 1 of the printed text stand for the quotient and the remainder of byte k by 16, a digit being valued by its distance from 0 or from a. |
| FileSha256.HexInjective | src/utils/file_sha256.cpp:186-190 | Two digests with the same hexadecimal text are equal, so comparing texts compares digests. |
| FileSha256.HexIsHex | src/utils/file_sha256.cpp:186-190 | Likewise for the function the proofs speak of. |
| FileSha256.Sha256.Update | src/utils/file_sha256.cpp:48-57 | Block-buffered update: the calculator now stands for the old message followed by the new bytes, with full blocks compressed and the rest buffered. |
| FileSha256.Sha256.Finish | src/utils/file_sha256.cpp:59-87 | Below 2^61 bytes the result is the standard digest of everything fed in, for the one-block and the two-block padding alike. |
| FileSha256.Sha256.PadAndTransform | src/utils/file_sha256.cpp:60-78 | Writing 0x80, zeros and the 64-bit length in place compresses exactly the blocks of the padded message. |
| FileSha256.PaddedBlocks | src/utils/file_sha256.cpp:60-78 | The block(s) the finishing code builds after the consumed ones are exactly what section 5.1.1 of FIPS 180-4 appends. |
| FileSha256.Sha256.Transform | src/utils/file_sha256.cpp:90-148 | The in-place schedule and the 64 rounds replace the state by the compression function of section 6.2.2 applied to it and the buffered block. |
| FileSha256.Sha256.PrepareWords | src/utils/file_sha256.cpp:91-111 | The two loops over words 0 to 15 and 16 to 63 leave in the array the message schedule of section 6.2.2, step 1, for the buffered block. |
| FileSha256.RunRounds | src/utils/file_sha256.cpp:113-139 | The 64-round loop over eight rotating variables is step 3 of section 6.2.2. |
| FileSha256.OneMoreBlock | src/utils/file_sha256.cpp:48-57 | Hashing one more full block is one more compression of the state reached so far. |
| Fips180.RotRIsRotation | src/utils/file_sha256.cpp:30-32 | The two shifts of `rotate_right` are a circular rotation for each of the ten amounts SHA-256 uses. |
| Fips180.ChIsChoice | src/utils/file_sha256.cpp:116-117 | The choice function takes each bit of y or of z as the bit of x says. |
| Fips180.MajIsMajority | src/utils/file_sha256.cpp:119-121 | The majority function gives the majority of each three bits. |
| Fips180.FirstRoundsOfAbc | src/utils/file_sha256.cpp:113-139 | The first four rounds give the words published for the message "abc". |
| Fips180.FirstWordsOfAbc | src/utils/file_sha256.cpp:91-111 | Words of the schedule published for that message. |
| Fips180.ScheduleAt | src/utils/file_sha256.cpp:91-111 | Every word of a schedule: one of the 16 of the block in order, or made from those 16, 15, 7 and 2 places before it. |
| Fips180.WordsAreBigEndian | src/utils/file_sha256.cpp:92-97 | Four bytes make a word with the first as its highest byte, and a word gives the same four bytes back. |
| Fips180.WordsInOrder | src/utils/file_sha256.cpp:79-86 | The words of a hash value stand in the digest one after the other. |
| Fips180.AddedInOrder | src/utils/file_sha256.cpp:140-147 | The eight working variables are added to the eight words of the state, each to its own. |
| Fips180.PaddingIs | src/utils/file_sha256.cpp:60-78 | Padding keeps the message, sets one bit behind it, fills up with zeros and ends with the eight bytes of the length in bits. |
| Fips180.LengthByteIs | src/utils/file_sha256.cpp:72-77 | Those eight bytes, each by the power of 256 it counts, the highest first. |
| Fips180.PaddingIsTheLeast | src/utils/file_sha256.cpp:60-73 | The number of padding zeros is the least that makes the length a multiple of the block size. |
| Fips180.PadLength | src/utils/file_sha256.cpp:60-78 | The padded message is a whole number of 64-byte blocks. |
| Fips180.ConstantsAreCubeRoots | src/utils/file_sha256.cpp:11-28 | Each of the 64 round constants is the first 32 bits of the fractional part of the cube root of the prime with its number. |
| Fips180.InitialValueIsSquareRoots | src/utils/file_sha256.cpp:36-46 | The initial state is made of the square roots of the first eight primes in the same way. |
| LockstepSort.QuickSortIndiceInverse | src/ai/yolov8/cpp/postprocess.cpp:153-184 | Terminates; sorts the segment descending; keeps both arrays in lockstep: the pairs (value, index) are a rearrangement of those before; nothing outside the segment changes. |
| LockstepSort.Partition | src/ai/yolov8/cpp/postprocess.cpp:161-179 | Hole-moving partition: the pivot pair ends where everything left of it is no smaller and everything right of it no larger, and no pair is lost or doubled. |
| LockstepSort.HoleMoves | src/ai/yolov8/cpp/postprocess.cpp:163-177 | Filling the hole from one side and opening it on the other keeps the pairs, the pivot included, a rearrangement. |
| LockstepSort.SortedHalves | src/ai/yolov8/cpp/postprocess.cpp:178-181 | Two sorted halves around the pivot make a sorted whole that is still a rearrangement. |
| LockstepSort.SortedFromIdentity | src/ai/yolov8/cpp/postprocess.cpp:619-624 | Started from the identity, the index array names for every place the box whose score stands there, each box once. |
| PostProcess.Nms | src/ai/yolov8/cpp/postprocess.cpp:115-151 | One pass removes exactly the boxes of its class that an earlier surviving box of the class overlaps above the threshold, and touches no other class; what an overlap is say the next two rows. |
| PostProcess.OverlapIsPixelShare | src/ai/yolov8/cpp/postprocess.cpp:92-100 | For boxes of whole numbers, corners included: the overlap times the number of pixels in the union of the two sets of pixels is the number of pixels in their intersection. |
| PostProcess.OverlapLaws | src/ai/yolov8/cpp/postprocess.cpp:92-100 | For all real boxes: between 0 and 1, the same in either order, positive iff the boxes share a point, and 1 for a box of non-negative size with itself. |
| PostProcess.Suppress | src/ai/yolov8/cpp/postprocess.cpp:127-149 | The inner loop: a box still there removes exactly the later boxes of the class that it overlaps above the threshold and that are not gone yet. |
| PostProcess.NmsAllClasses | src/ai/yolov8/cpp/postprocess.cpp:626-631 | Whatever the order of the classes, what is left is the greedy set: a box stays iff no surviving same-class box before it overlaps it above the threshold. |
| PostProcess.SurvivesWithinClass | src/ai/yolov8/cpp/postprocess.cpp:115-151 | Whether a box survives depends on the boxes of its own class only. |
| PostProcess.OneMoreClass | src/ai/yolov8/cpp/postprocess.cpp:626-631 | The pass for one class leaves the result of the passes before it in place. |
| PostProcess.SuppressorOf | src/ai/yolov8/cpp/postprocess.cpp:115-151 | Every box that does not survive has a surviving box before it that overlaps it above the threshold. |
| PostProcess.PicksAreSeparate | src/ai/yolov8/cpp/postprocess.cpp:636-659 | Two reported boxes of one class overlap at most by the threshold, and results come in non-increasing score. |
| PostProcess.MissingIsExplained | src/ai/yolov8/cpp/postprocess.cpp:636-659 | A box that is not reported is overlapped by a reported one of its class scored no lower, or 128 results scored no lower were reported. |
| PostProcess.ScaledStaysInFrame | src/ai/yolov8/cpp/postprocess.cpp:652-655 | Clamped and scaled coordinates lie between 0 and the scaled model size, left of right and top above bottom. |
| PostProcess.DetectionCorners | src/ai/yolov8/cpp/postprocess.cpp:642-657 | Left and top of a result come from the corner of the box less the padding, right and bottom from that corner moved by width and height, each kept between 0 and the model size, cut to a whole number and divided by the scale; class and score are those of the box. |
| PostProcess.Emit | src/ai/yolov8/cpp/postprocess.cpp:636-660 | The first 128 live positions are reported in order, each with the box, class and score of its own index. |
| PostProcess.SortByScore | src/ai/yolov8/cpp/postprocess.cpp:619-624 | The copied scores and the identity index array come out as a descending order of the boxes. |
| PostProcess.PostProcess | src/ai/yolov8/cpp/postprocess.cpp:614-661 | The result list as a whole: at most 128 results, no box twice, non-increasing scores, each with its own geometry, class and score, same-class results separate, every missing box explained. |
| EventPaths.PaddedValue | src/events/event_paths.cpp:73-79 | Zero-padded printing loses nothing, also when the number is wider than the padding. |
| EventPaths.SplitAtLastDash | src/events/event_paths.cpp:73-79 | A digits-only tail can be told from what stands before the last dash. |
| EventPaths.EventIdInjective | src/events/event_paths.cpp:73-79 | Two event ids are equal only if clock reading and sequence number are. |
| EventPaths.RecordingIdInjective | src/events/device_event_processor.cpp:169-171 | Recordings a device starts at different times have different ids. |
| EventPaths.ClipPathInjective | src/events/event_paths.cpp:132-138 | Two clip paths are equal only if their dates and sequence numbers are. |
| EventPaths.NamesWrittenOut | src/events/event_paths.cpp:73-138 | Event ids, recording ids and clip paths written out for numbers shorter and longer than the seven digits they are filled up to, and for a negative time. |
| StoreTables.RunIsOk | src/events/event_store.cpp:91-169 | In every reachable store: at most one ring is not ended; the queued presses of a ring are exactly numbers 2 to `press_count`; keys and references hold; totals agree with the segment rows; ids come from used sequence numbers. |
| StoreTables.ApplyKeepsOneActive | src/events/event_store.cpp:156-157 | Every transaction keeps at most one ring active. |
| StoreTables.ActivatedBy | src/events/event_store.cpp:731-757 | Only a first press and a remote state command can make a ring active. |
| StoreTables.ApplyKeepsPresses | src/events/event_store.cpp:346-393 | Every transaction keeps the queued presses of each ring exactly 2 to `press_count`. |
| StoreTables.ApplyKeepsKeys | src/events/event_store.cpp:100-166 | Every transaction keeps foreign keys and unique columns. |
| StoreTables.ApplyKeepsAccounts | src/events/event_store.cpp:925-945 | Every transaction keeps `segment_count` the number of segment rows and `total_media_duration_ms` the sum of their durations. |
| StoreTables.ApplyKeepsIds | src/events/event_store.cpp:228-245 | Every transaction keeps event ids made from sequence numbers already used. |
| StoreTables.FreshIdIsNew | src/events/event_store.cpp:228-245 | The id made from the next sequence number is never taken, whatever the clock reads. |
| StoreTables.NewEventAllowedIff | src/events/event_store.cpp:210-290 | A person event is refused only for a missing recording, a first press only for another active ring or for its recording row. |
| StoreTables.EventIdsDistinct | src/events/event_store.cpp:228-245 | Over any run no two committed events have the same id. |
| StoreTables.ClipsDistinct | src/events/event_store.cpp:984-1060 | Over any run no clip path is allocated twice. |
| StoreTables.CountersNeverFall | src/events/event_store.cpp:1016-1049 | Event and clip sequence numbers never fall along a run. |
| StoreTables.TerminalKept | src/events/event_store.cpp:874-982 | No transaction changes the status, the totals or the set of segment rows of a terminal recording. |
| StoreTables.TerminalForever | src/events/event_store.cpp:874-982 | Nor does any run of transactions. |
| StoreTables.RehashedRows | src/events/event_store.cpp:1234-1259 | Storing a hash changes no segment row otherwise. |
| StoreTables.ReopenClosesAll | src/events/event_store.cpp:170-175 | After reopening no recording is open: those that were are failed, all totals kept. |
| StoreTables.NoneDueAfterCheck | src/events/event_store.cpp:543-592 | The `LIMIT 1` of the expiry check misses nothing: afterwards no ringing ring is at or past its deadline. |
| StoreTables.NoneAcceptedAfterRecovery | src/events/event_store.cpp:595-662 | The `LIMIT 1` of the startup recovery misses nothing: afterwards no ring is accepted. |
| RingCoalescing.PressesAreGrouped | src/events/device_event_processor.cpp:102-136 | In every run of presses and expiry checks, failing ones included, under a clock that does not run backwards and without remote state commands: two presses share an event iff the press times and the times of the committed checks group them. |
| RingCoalescing.NewEventIff | src/events/device_event_processor.cpp:106-109 | A press starts a new event iff a check was committed, its own or one since the press before it, at a time when the ring had lapsed (40 s after its last press or 120 s after its first). A press past that time whose checks all failed shares the lapsed event. |
| RingCoalescing.TimesAloneDecide | src/events/device_event_processor.cpp:102-136 | If the own check of every press is committed, the press times alone decide; checks in between, working or not, change nothing. |
| RingCoalescing.GroupBounds | src/events/event_store.cpp:543-553 | Presses of one group are consecutive; each whose own check was committed comes less than 40 s after the one before and less than 120 s after the first. |
| RingCoalescing.ActiveIffJoins | src/events/event_store.cpp:543-553 | At a press a ring is active iff no check has been committed since the last ring lapsed, and then it is that ring. |
| RingCoalescing.PressKeepsInv | src/events/device_event_processor.cpp:102-108 | A press, its own check working or not, keeps the agreement between the ring row, the press times, the committed checks and the clock. |
| RingCoalescing.CheckKeepsInv | src/events/device_event_processor.cpp:381-400 | So does an expiry check, working or not. |
| RingCoalescing.CheckEnds | src/events/device_event_processor.cpp:381-400 | A check ends the ring of the last press iff that has lapsed, and no other. |
| RingCoalescing.GroupedExtends | src/events/device_event_processor.cpp:102-136 | One more press extends the grouping as the times say. |
| EventStore.EventStore.Reopen | src/events/event_store.cpp:170-175 | In one statement every recording still open becomes failed, ended at its start if it had no end, and no other column changes; without a fault that succeeds; else nothing changes. |
| EventStore.EventStore.CreatePersonEvent | src/events/event_store.cpp:210-290 | With any statement failing: the next sequence number and an event row with exactly the values given, or nothing. Without a fault it succeeds iff the recording exists; the id returned is the one stored. |
| EventStore.EventStore.RecordRingPress | src/events/event_store.cpp:292-524 | With any statement failing: the next press of the active ring with its queue row, or a new event with its ring row and, if wanted, its recording row, column by column; or nothing, also when the lookup fails and reads as no active ring. Without a fault it succeeds iff a ring is active or the recording to use is there, or not there if it is to be made. |
| EventStore.EventStore.AddPress | src/events/event_store.cpp:346-393 | Press count one higher, last press now, and the queue row under the new number; or nothing. Without a fault it succeeds. |
| EventStore.EventStore.AddRing | src/events/event_store.cpp:396-523 | Sequence, event row, ring row (ringing, one press, both times now) and the recording row if wanted are stored together, or none is. Without a fault it succeeds iff every ring has ended and the recording is there or not as the caller says. |
| EventStore.EventStore.FindActive | src/events/event_store.cpp:311-327 | The lookup returns an active ring iff there is one. |
| EventStore.EventStore.ExpireOpenRing | src/events/event_store.cpp:526-593 | Only the state of one ring changes, to ended, and that ring was ringing 40 s after its last press or 120 s after its first; without a fault that happens iff there is such a ring, and none is left. |
| EventStore.EventStore.RecoverStaleAcceptedRing | src/events/event_store.cpp:595-662 | Success ends the accepted ring if there is one, leaves none, changes nothing else and names it; failure changes nothing and needs a fault. |
| EventStore.EventStore.MarkRingPressReported | src/events/event_store.cpp:707-729 | That press row is marked and nothing else changes; without a fault iff there is such a row. |
| EventStore.EventStore.UpdateRingState | src/events/event_store.cpp:731-757 | Exactly the state given is written to exactly that ring; without a fault iff the ring exists and, unless the state is ended, every other ring has ended. |
| EventStore.EventStore.BeginRecording | src/events/event_store.cpp:759-794 | A new open row with that start, no end and no segments; without a fault iff the id is free; else nothing changes. |
| EventStore.EventStore.AppendRecordingSegment | src/events/event_store.cpp:874-948 | The row with the values given is appended and counted in both totals, or nothing changes. Without a fault that happens iff the recording is open and no segment has its id or, in that recording, its index. |
| EventStore.EventStore.FinalizeRecording | src/events/event_store.cpp:950-982 | Status and end given are written to that recording and nothing else changes; without a fault iff the status is terminal and the recording open. |
| EventStore.EventStore.AllocateClipRef | src/events/event_store.cpp:984-1060 | Terminates for every finite set of existing files; the path returned is not on disk and has the first free number after the last one allocated for the day; failure changes nothing and needs a fault. |
| EventStore.EventStore.UpdateEventSnapshotUrl | src/events/event_store.cpp:1134-1162 | The address is stored in the row of that event and nothing else changes; without a fault iff the event exists. |
| EventStore.EventStore.UpdateSegmentSha256 | src/events/event_store.cpp:1234-1259 | The hash is written to the segment of that id alone; without a fault iff there is one that has no hash or the same. |
| EventStore.EventStore.SetEventReported | src/events/event_store.cpp:1281-1309 | The verdict is stored in the row of that event and nothing else changes; an unknown event is accepted and changes nothing; without a fault it succeeds. |
| EventStore.OneMoreActive | src/events/event_store.cpp:156-157 | While a ring is active the index refuses a second one under any id, and the next press number of the active one is free. |
| EventStore.PersonStored | src/events/event_store.cpp:210-290 | What the transaction of a person event stores, column by column, and exactly when the constraints admit it. |
| EventStore.PressStored | src/events/event_store.cpp:346-393 | Likewise for another press; the next press number is never taken. |
| EventStore.RingStored | src/events/event_store.cpp:396-523 | Likewise for a new ring; its id is never taken. |
| ReportProtocol.NoReportLostOrDoubled | src/events/device_event_processor.cpp:74-85 | From a startup with complete scans, in every interleaving: an unreported event has exactly one carrier, no event has two, an armed token has exactly one timeout job that will use it, a press has a carrier exactly while unreported. |
| ReportProtocol.EveryRunKeepsCarriers | src/events/device_event_processor.cpp:102-379 | The invariant behind it holds along every run from every state that satisfies it. |
| ReportProtocol.NextKeepsInv | src/events/device_event_processor.cpp:102-379 | Each of the 21 steps of callers and workers keeps it. |
| ReportProtocol.EventOkKept | src/events/device_event_processor.cpp:562-698 | For each event: carriers, the armed token and its timeout job stay in balance. |
| ReportProtocol.PressOkKept | src/events/device_event_processor.cpp:625-660 | For each press: exactly one carrier until its row is marked, none afterwards. |
| ReportProtocol.CarrierGoesOnlyWhenSettled | src/events/device_event_processor.cpp:662-671 | The last carrier of an event disappears only when its row holds a verdict. |
| ReportProtocol.SettledForever | src/events/device_event_processor.cpp:701-739 | A verdict is never taken back. |
| ReportProtocol.TokenTakenOnce | src/events/device_event_processor.cpp:264-273 | However the timeout and the selected picture race, the snapshot token of an event is taken at most once. |
| ReportProtocol.TokensLeftFall | src/events/device_event_processor.cpp:563-568 | Taking a token uses up the only one the event will ever have. |
| ReportProtocol.StartLosesNothingIff | src/events/device_event_processor.cpp:74-85 | After a restart the invariant holds iff both scans returned every unreported row. |
| ReportProtocol.PartialScanLosesReports | src/events/event_store.cpp:1077-1094 | Scans that stop at an error after n events and m presses lose nothing iff those are all. |
| ReportProtocol.MissedStaysLost | src/events/device_event_processor.cpp:74-85 | An event a scan missed has no carrier for the rest of that process. |
| ReportProtocol.FailedScanLosesReport | src/events/device_event_processor.cpp:74-79 | The scan errors are not looked at: a concrete start with a failed query loses a report. |
| ReportProtocol.WorkedReaches | src/events/device_event_processor.cpp:299-379 | What a worker does with a job it takes is a run of protocol steps. |
| ReportProtocol.ReachedStatesOk | src/events/device_event_processor.cpp:299-379 | Hence it keeps the invariant. |
| RecordingProtocol.EveryVerdictJustified | src/events/device_event_processor.cpp:404-499 | Over every run, restarts and segments of unregistered recordings included: a recording is finalized or interrupted only with at least one segment, by a job that asked for it and whose earlier segment jobs, since the start of the process that began the recording, were all committed. |
| RecordingProtocol.NextKeepsInv | src/events/device_event_processor.cpp:404-499 | Each step of submitting, taking, committing, failing, finishing, retrying and restarting keeps the invariants behind it. |
| RecordingProtocol.FailedIff | src/events/device_event_processor.cpp:481-483 | A finalize job writes `failed` iff it was asked to, no segment of the recording was ever committed, or one has failed since the process started, even before the recording was registered. |
| RecordingProtocol.NoOvertakingKept | src/events/device_event_processor.cpp:299-339 | A finalize job, retried or not, never gets ahead of a segment job submitted before it. |
| RecordingProtocol.EarlierSegmentsDone | src/events/device_event_processor.cpp:470-483 | When a finalize job runs, every segment job submitted before it in this process has an outcome. |
| RecordingProtocol.FinishJustified | src/events/device_event_processor.cpp:470-498 | What a finalize job writes other than `failed` is justified by the outcomes. |
| RecordingProtocol.MarksExactKept | src/events/device_event_processor.cpp:405-413 | Until a recording is terminal, even before it is registered, the failure mark says exactly whether a segment has failed in this process; the segment count always says whether one was committed. |
| RecordingProtocol.PendingQueuedKept | src/events/device_event_processor.cpp:283-297 | No segment job of the running process is forgotten, whatever its recording. |
| RecordingProtocol.OpenAtRestartFailedForever | src/events/event_store.cpp:170-175 | A recording open when the process ends is failed with the segments it had in every state of every later run. |
| RecordingProtocol.TerminalForever | src/events/event_store.cpp:970-974 | A terminal row never changes along any run. |
| RecordingProtocol.RetriedUntil | src/events/device_event_processor.cpp:335-339 | Over every run a finalize job stays queued or in hand exactly until the first step that is a restart or finishes it. |
| RecordingProtocol.LeavesMemory | src/events/device_event_processor.cpp:470-499 | A step finishes it only while its recording is open. |
| RecordingProtocol.RetriedForever | src/events/device_event_processor.cpp:335-339 | So a finalize job for a recording that is terminal, or unknown and never begun, is retried until the process ends. |
| RecordingProtocol.FinalizedTwice | src/events/device_event_processor.cpp:470-490 | Such a job is reachable: a recording finalized twice leaves the second job in memory. |
| RecordingProtocol.WorkedReaches | src/events/device_event_processor.cpp:299-341 | What the worker does with a recording job is a run of protocol steps. |
| DeviceEventProcessor.FirstReady | src/events/device_event_processor.cpp:311-326 | The scan returns the first ready job, or none and the earliest time at which one will be. |
| DeviceEventProcessor.DeviceEventProcessor.Enqueue | src/events/device_event_processor.cpp:283-297 | Reports go to one queue and the other jobs to the other, at the end. |
| DeviceEventProcessor.DeviceEventProcessor.TakeJob | src/events/device_event_processor.cpp:302-334 | A recording job goes first, in order; else the first ready job; else none is ready. |
| DeviceEventProcessor.DeviceEventProcessor.TakeReport | src/events/device_event_processor.cpp:345-372 | The first ready report is taken, or none is ready. |
| DeviceEventProcessor.DeviceEventProcessor.WorkerTurn | src/events/device_event_processor.cpp:299-341 | One turn checks for expiry, then takes and deals with one job or finds none ready; recording jobs go first. In the tables: the check ends a ring that had lapsed, without a fault always if there is one, and changes nothing else; the rest of the turn changes exactly what the job taken calls for: the address of a submitted picture, a segment row with its totals, or the end of a recording. |
| DeviceEventProcessor.DeviceEventProcessor.ReportWorkerTurn | src/events/device_event_processor.cpp:343-379 | One turn takes a ready report, sends it iff its row reads as unreported, and either lets it go (event settled; press published and marked) or queues it again five seconds later; no other row changes. |
| DeviceEventProcessor.DeviceEventProcessor.HandleReport | src/events/device_event_processor.cpp:363-377 | A report in hand is sent, let go or queued again as its row and the answers say. |
| DeviceEventProcessor.DeviceEventProcessor.RetryReport | src/events/device_event_processor.cpp:373-377 | A failed report is queued again, ready five seconds later. |
| DeviceEventProcessor.DeviceEventProcessor.ProcessReportEvent | src/events/device_event_processor.cpp:662-698 | Done iff the row is read and holds a verdict, sent iff it is read and holds none; otherwise left to be retried; no row changes. |
| DeviceEventProcessor.DeviceEventProcessor.ProcessReportPress | src/events/device_event_processor.cpp:625-660 | Done only when published, and then exactly its row is marked; always done when it is published, the database works and the row exists; otherwise no row changes. |
| DeviceEventProcessor.DeviceEventProcessor.BeginPrepare | src/events/device_event_processor.cpp:562-568 | A timeout goes on iff it still finds the token, which it takes; a submitted picture always goes on. |
| DeviceEventProcessor.DeviceEventProcessor.FinishPrepare | src/events/device_event_processor.cpp:570-622 | A picture that was saved and uploaded has its address stored in the row of its event, always when the database works and the event exists; no other column changes; the report is queued in every case. |
| DeviceEventProcessor.DeviceEventProcessor.ProcessJob | src/events/device_event_processor.cpp:501-623 | A submitted picture has its address stored as in FinishPrepare, no other job changes a row, and exactly a submitted picture and a timeout that finds its token queue a report. |
| DeviceEventProcessor.DeviceEventProcessor.BeginRingPress | src/events/device_event_processor.cpp:102-136 | Expiry check, then the press as the store records it, row by row; a first press arms the token and queues its timeout, another press queues its report, a failed one changes nothing more. |
| DeviceEventProcessor.DeviceEventProcessor.RecordPress | src/events/device_event_processor.cpp:107-109 | Recording the press is the commit step of both protocols. |
| DeviceEventProcessor.DeviceEventProcessor.ArmRing | src/events/device_event_processor.cpp:112-127 | The token is armed before the timeout is queued, 1.1 s ahead. |
| DeviceEventProcessor.DeviceEventProcessor.Expire | src/events/device_event_processor.cpp:381-400 | An expiry check ends a lapsed ring if there is one and the database works, and changes no other row, report or recording. |
| DeviceEventProcessor.DeviceEventProcessor.BeginPersonEvent | src/events/device_event_processor.cpp:146-160 | The event row with the values given is committed before its report is queued, or nothing happens; without a fault it happens iff the recording exists. |
| DeviceEventProcessor.DeviceEventProcessor.RecordPerson | src/events/device_event_processor.cpp:146-156 | Recording the event is the commit step of both protocols and adds exactly that row. |
| DeviceEventProcessor.DeviceEventProcessor.SubmitRingSnapshot | src/events/device_event_processor.cpp:264-281 | A picture is queued iff the token is still there, and the token is gone then. |
| DeviceEventProcessor.DeviceEventProcessor.SubmitPersonSnapshot | src/events/device_event_processor.cpp:251-262 | A person snapshot is queued and carries no report. |
| DeviceEventProcessor.DeviceEventProcessor.HandleReportAck | src/events/device_event_processor.cpp:701-739 | Success and permanent rejection are stored as verdicts 1 and -1 in the row of the event; a retryable rejection changes nothing. |
| DeviceEventProcessor.DeviceEventProcessor.RegisterStartedRecording | src/events/device_event_processor.cpp:162-174 | A recording is begun under the id of device and time, open and without segments, exactly when media are writable, the id is free and the database works. |
| DeviceEventProcessor.DeviceEventProcessor.SubmitSegment | src/events/device_event_processor.cpp:200-216 | A segment job goes to the end of the recording queue, whether or not its recording is known. |
| DeviceEventProcessor.DeviceEventProcessor.FinalizeRecording | src/events/device_event_processor.cpp:218-249 | A finalize job goes to the end of the same queue; a status that is not terminal and a worker that is not running are refused. |
| DeviceEventProcessor.DeviceEventProcessor.StoreSegment | src/events/device_event_processor.cpp:441-460 | The row stored has the id, index, duration (never negative) and hash of the job, and counts as one more segment. |
| DeviceEventProcessor.DeviceEventProcessor.ProcessSegment | src/events/device_event_processor.cpp:404-468 | A segment is stored iff every check of names and file passes and the database takes it; any failure marks the recording, changes no row and is not retried. |
| DeviceEventProcessor.DeviceEventProcessor.TryFinalize | src/events/device_event_processor.cpp:470-490 | The status written is the one asked for, or failed without a segment or after a failure, with the end asked for; without faults an open recording is always finalized; no other row changes. |
| DeviceEventProcessor.DeviceEventProcessor.ProcessFinalize | src/events/device_event_processor.cpp:470-499 | With no fault a finalize job is done in this turn iff its recording is open; one that is not done goes back to the end of the queue. |
| DeviceEventProcessor.DeviceEventProcessor.OpenStore | src/events/device_event_processor.cpp:55-67 | A successful start fails the recordings left open, ends an accepted ring and changes nothing else. |
| DeviceEventProcessor.DeviceEventProcessor.QueuePendingEvents | src/events/device_event_processor.cpp:74-79 | A report is queued for each row the scan returned, and for no other. |
| DeviceEventProcessor.DeviceEventProcessor.QueuePendingPresses | src/events/device_event_processor.cpp:80-85 | Likewise for the presses. |
| DeviceEventProcessor.DeviceEventProcessor.Start | src/events/device_event_processor.cpp:53-90 | A start is a restart of the recording protocol; its report state satisfies the invariant iff neither scan stopped early. |
| QualityProtocol.EverySwitchAnsweredOnce | src/device/live_webrtc_session.cpp:1128-1208 | In every interleaving: when nothing is pending and nobody is finishing, the callback of every accepted switch was called exactly once, unless stop discarded the switch. |
| QualityProtocol.EveryRunKeepsInv | src/device/live_webrtc_session.cpp:1128-2437 | Over every run: each accepted switch is in exactly one place, the appsrc has the size of the quality in force while a session exists, and a pending switch remembers the quality in force before it. |
| QualityProtocol.NextKeepsInv | src/device/live_webrtc_session.cpp:1128-2437 | Each of the 14 steps keeps this. |
| QualityProtocol.PlacedKept | src/device/live_webrtc_session.cpp:2285-2333 | Never two pending switches, never two answers: taking the pending switch out under the lock moves it to exactly one thread. |
| QualityProtocol.SizeOkKept | src/device/live_webrtc_session.cpp:1154-1173 | Width, height and frame size always are those of `profile_for_quality` of the quality in force. |
| QualityProtocol.SizesInForce | src/device/live_webrtc_session.cpp:716-722 | Over every run: width, height, frame size and, when the encoder fits, its size and bit rate, as numbers for each of the four qualities and both pixel formats. |
| QualityProtocol.SettledOkKept | src/device/live_webrtc_session.cpp:2290-2306 | Without a pending switch the quality in force is that of the start or of the last successful switch. |
| QualityProtocol.FailedSwitchRestores | src/device/live_webrtc_session.cpp:2298-2306 | A switch that fails, however late, puts back the quality and the size in force when it was requested. |
| QualityProtocol.CallbackNamesTheSwitch | src/device/live_webrtc_session.cpp:2326-2332 | A callback names the quality its switch asked for and the one it replaced. |
| QualityProtocol.NothingDiscardedWithoutStop | src/device/live_webrtc_session.cpp:1281-1289 | A run without stop discards no switch. |
| QualityProtocol.BranchRightIff | src/device/live_webrtc_session.cpp:2144-2263 | Over every run, failing reconfigurations and rollbacks included: whenever nobody is about to set up the encoder, it is set up for the quality in force iff the last step that configured it worked and was not late, which the list of steps alone tells: what it set up is by its profile the quality last started or asked for whose switch has not failed. |
| QualityProtocol.RunTells | src/device/live_webrtc_session.cpp:2285-2316 | Over every run the list of steps alone tells the quality in force, what the pending switch replaces, and what each requester and each rollback is about to set up. |
| QualityProtocol.PendingReconfigureFits | src/device/live_webrtc_session.cpp:1185-1196 | A requester is on time while its switch is pending. |
| QualityProtocol.PromptRollBackFits | src/device/live_webrtc_session.cpp:2309-2316 | A rollback is on time over every run until something new is requested or started. |
| QualityProtocol.LateReconfigureWins | src/device/live_webrtc_session.cpp:1185-1196 | A run that fails the condition: a requester reconfigures after the watchdog rollback, and a 1080p encoder is left behind an unpaused 720p stream. |
| QualityProtocol.FailedReconfigureRecovers | src/device/live_webrtc_session.cpp:1188-1195 | A run that meets it although the requester could not reconfigure: its own rollback mends the encoder. |
| QualityProtocol.LateButRight | src/device/live_webrtc_session.cpp:1185-1196 | A run in which a requester reconfigures after its switch was confirmed and the encoder is right: coming late is harmless while the quality is the same. |
| QualityProtocol.BrokenBranchMayStream | src/device/live_webrtc_session.cpp:2309-2325 | A run at the end of which the video is not paused after a failed rollback and there is no encoder branch, although the log says it stays paused. |
| QualityProtocol.FailedRollbackPausedIff | src/device/live_webrtc_session.cpp:2318-2325 | Over every run from a request to the callback after a failed rollback: the video is paused then iff nothing has let it run after the last pausing step of the run. |
| QualityProtocol.PausedIff | src/device/live_webrtc_session.cpp:2318-2325 | The pause flag over any run: set iff the last pausing step stands, or it was set before and nothing has let the video run. |
| QualityProtocol.AnsweredIff | src/device/live_webrtc_session.cpp:1612-1623 | Over every run a pending switch counts as answered iff an answer came after the last request, and only then can a probe see it. |
| QualityProtocol.ProbeConfirmsItsSwitchIff | src/device/live_webrtc_session.cpp:1612-1640 | Over every run from the look of a probe to its call: it confirms the switch it saw iff that one is still pending, equivalently iff no switch was taken out and no stop came in between; otherwise it confirms whatever is pending. |
| QualityProtocol.WrongSwitchConfirmed | src/device/live_webrtc_session.cpp:1612-1640 | A run that fails the condition: the probe saw switch 0, and switch 1, to which no answer came, is reported as successful. |
| LiveWebRtcSession.LiveWebRtcSession.SwitchQuality | src/device/live_webrtc_session.cpp:1128-1208 | The three refusals in order, the immediate answer for an unchanged quality, and an accepted switch, which fails at once when the encoder cannot be reconfigured. |
| LiveWebRtcSession.LiveWebRtcSession.StartSwitch | src/device/live_webrtc_session.cpp:1159-1207 | An accepted switch is pending with the new quality in force, or already answered with failure and undone. |
| LiveWebRtcSession.LiveWebRtcSession.AnswerUnchanged | src/device/live_webrtc_session.cpp:1180-1183 | Asking for the quality in force calls the callback with success and changes nothing else. |
| LiveWebRtcSession.LiveWebRtcSession.RecordSwitch | src/device/live_webrtc_session.cpp:1159-1173 | The switch, its deadline of five seconds, the new quality and size and the pause are set in one section. |
| LiveWebRtcSession.LiveWebRtcSession.FinishQualitySwitch | src/device/live_webrtc_session.cpp:2285-2333 | The pending switch is answered once and, on failure, quality and encoder are put back; without a pending switch nothing is called. |
| LiveWebRtcSession.LiveWebRtcSession.Confirm | src/device/live_webrtc_session.cpp:2285-2333 | A confirmed switch keeps its quality and lets the video run. |
| LiveWebRtcSession.LiveWebRtcSession.Fail | src/device/live_webrtc_session.cpp:2285-2333 | A failed switch restores quality and encoder profile; the video runs again iff the rollback worked or it was not paused. |
| LiveWebRtcSession.LiveWebRtcSession.WatchdogTurn | src/device/live_webrtc_session.cpp:2335-2361 | A switch still pending at its deadline is answered with failure, and quality and encoder are put back as in `finish_quality_switch`; nothing happens before. |
| LiveWebRtcSession.LiveWebRtcSession.OnRtpProbe | src/device/live_webrtc_session.cpp:1612-1641 | The first packet after the answer confirms the switch; other packets change nothing. |
| LiveWebRtcSession.LiveWebRtcSession.OnRemoteDescriptionSet | src/device/live_webrtc_session.cpp:2376-2437 | An answer for the current call is noted and resumes the video, a failed one answers the switch with failure and puts quality and encoder back, a stale one changes nothing. |
| LiveWebRtcSession.LiveWebRtcSession.OnPushError | src/device/live_webrtc_session.cpp:1910-1921 | A frame that cannot be pushed pauses the video; a pending switch is answered with failure, and quality and encoder are put back. |
| LiveWebRtcSession.LiveWebRtcSession.OnBusError | src/device/live_webrtc_session.cpp:1530-1561 | A bus error does the same iff it comes from the video branch while that is not being reconfigured and frames are not stopped; any other one changes nothing. |
| LiveWebRtcSession.LiveWebRtcSession.Stop | src/device/live_webrtc_session.cpp:1210-1298 | Stop drops a pending switch without calling its callback. |
| LiveWebRtcSession.LiveWebRtcSession.Start | src/device/live_webrtc_session.cpp:1051-1094 | A start stops first and sets up the session for the requested quality. |
| LiveWebRtcSession.LiveWebRtcSession.PublishActive | src/device/live_webrtc_session.cpp:2126-2136 | Switches are accepted from the moment the connection is up. |
| DrawRectangle.DrawRectangle | src/utils/image_drawing.c:313-444 | For every rectangle, thickness and image of any channel count: writes stay in the buffer, exactly the pixels of the filled rectangle or of its four sides get the colour, every other byte is unchanged. |
| DrawRectangle.PaintRows | src/utils/image_drawing.c:344-363 | Clipped row loops paint the part of the box that lies in the image. |
| DrawRectangle.PaintColumns | src/utils/image_drawing.c:391-416 | So do the clipped column loops. |
| DrawRectangle.PaintPixel | src/utils/image_drawing.c:358-361 | All bytes of one pixel and no other byte. |
| DrawRectangle.IndexInside | src/utils/image_drawing.c:317-354 | Every byte of every pixel of the image lies in the buffer. |
| DrawRectangle.IndexInjective | src/utils/image_drawing.c:317-354 | Different bytes of different pixels never share a place. |
| DrawRectangle.PlacesInOrder | src/utils/image_drawing.c:354-361 | The bytes of a pixel, the pixels of a row and the rows of an image follow each other. |
| DrawRectangle.PenWrittenOut | src/utils/image_drawing.c:349-361 | The bytes written are those of the colour, the lowest first. |
| DrawRectangle.RingIff | src/utils/image_drawing.c:340-444 | With thickness at least 1 the four sides are the ring between the outer and the inner rectangle iff the size satisfies a stated condition, which every non-negative size does, overlapping sides included. |
| DrawRectangle.NotARing | src/utils/image_drawing.c:340-444 | For every other size a pixel at which they differ. |
| DrawRectangle.NoThicknessNothing | src/utils/image_drawing.c:340-444 | Thickness zero and the negative ones other than -1 paint nothing. |
| DrawRectangle.FilledIs | src/utils/image_drawing.c:340-367 | Thickness -1 fills the rectangle. |
| Sdp.MidForMline | src/device/webrtc_sdp_utils.cpp:5-46 | For every text and 32-bit index the scan returns the first mid value of that media section of the text read by lines, or nothing. |
| Sdp.MidsAreReadBack | src/device/webrtc_sdp_utils.cpp:5-46 | In a text made of any number of sections with a mid each, the mid read for section k is the one written there, and none is read past the last. |
| Sdp.HasSingleAudioVideoPair | src/device/webrtc_sdp_utils.cpp:48-88 | For every text the scan tests the media types of its lines with 32-bit counters; for every text shorter than 34,359,738,383 characters it says exactly whether there is one audio and one video section. |
| Sdp.PairIff | src/device/webrtc_sdp_utils.cpp:87-87 | For every list of media types: one audio and one video section in either order iff the test passes and there are fewer than 2^32 + 2. |
| Sdp.PairOfText | src/device/webrtc_sdp_utils.cpp:48-88 | A text shorter than the shortest one whose counter wraps is judged right. |
| Sdp.WrappedCounterPasses | src/device/webrtc_sdp_utils.cpp:49-51 | That shortest text, built: 2^32 + 1 video lines and an audio line, which the scan takes for one of each. |
| Sdp.TextMakesLines | src/device/webrtc_sdp_utils.cpp:12-20 | Lines without newlines are read back from the text they are joined to. |
| Sdp.LineAt | src/device/webrtc_sdp_utils.cpp:13-20 | The text cut out at an offset is the next line without its carriage return. |
| Sdp.ReadMediaType | src/device/webrtc_sdp_utils.cpp:66-71 | The media type is the text between "m=" and the first space. |
| Sdp.TypeIsRead | src/device/webrtc_sdp_utils.cpp:66-71 | A type without spaces is read back, whether or not anything follows it. |
| Sdp.TypesOfSections | src/device/webrtc_sdp_utils.cpp:64-79 | The media types are those of the first lines of the sections. |
| Sdp.LinesMakeText | src/device/webrtc_sdp_utils.cpp:12-20 | The lines joined by newlines are the text, and none contains a newline. |
| Sdp.MediaStep | src/device/webrtc_sdp_utils.cpp:22-30 | A media line moves the scan through the sections as its two variables say. |
| Sdp.OtherStep | src/device/webrtc_sdp_utils.cpp:31-38 | Any other line does too. |
| DmaPool.DmaPool.Acquire | src/utils/mp4_recorder.cpp:93-152 | Leases handed out before stay untouched; a new lease is distinct and of the wanted size; the pool is reported exhausted iff all six buffers are leased; an idle buffer of the right size is reused without allocating. |
| DmaPool.DmaPool.Provide | src/utils/mp4_recorder.cpp:136-148 | An idle slot keeps its buffer if the size fits; otherwise its buffer is closed and replaced, and a failed allocation leaves the slot empty and the old buffer closed. |
| DmaPool.DmaPool.FindIdle | src/utils/mp4_recorder.cpp:113-127 | The two searches choose an idle slot of the size, else any idle slot, else none. |
| DmaPool.DmaPool.Release | src/utils/mp4_recorder.cpp:154-163 | Only the slot of the lease becomes idle. |
| DmaPool.LeasesDistinct | src/device/live_webrtc_session.cpp:108-174 | Two live leases have different slots and different open descriptors. |
| DmaPool.AtMostSixLeases | src/utils/mp4_recorder.cpp:128-133 | Never more than six leases, and six iff all six slots are in use. |
| DmaPool.ClosingIdle | src/utils/mp4_recorder.cpp:137-138 | Closing the buffer of an idle slot closes no leased buffer and leaks no descriptor. |
| DmaPool.LeasingIdle | src/utils/mp4_recorder.cpp:149-151 | Marking the slot in use is exactly one more lease. |
| DeviceSettingsStore.DeviceSettingsStore.PersistLocked | src/device/device_settings_store.cpp:171-194 | The file is replaced by one rename of a temporary file that is whole, or not at all, whichever step fails; a torn temporary file never gets there and is removed. |
| DeviceSettingsStore.DeviceSettingsStore.ReplaceSettings | src/device/device_settings_store.cpp:145-159 | Memory and disk change together or not at all; invalid settings are refused. |
| DeviceSettingsStore.DeviceSettingsStore.UpdateTimeSync | src/device/device_settings_store.cpp:161-169 | Memory and disk change together or not at all, and the settings stay. |
| Provisioning.Provisioning.HandleApply | src/device/provisioning.cpp:664-827 | The command ends where the six field steps in order lead, with memory and disk equal to the values reported; what that is for every field say the next two rows. |
| Provisioning.OutcomesAreDue | src/device/provisioning.cpp:683-820 | On settings, patch and answers alone: a requested field is answered iff no earlier one stops the command and it does not itself; it is failed with its code if its value is not accepted or one of the four handlers refuses a new value, unchanged if the value is the old one, applied if it is new, not refused and can be stored; a new value that is not refused and cannot be stored stops the command. |
| Provisioning.ValuesAreThose | src/device/provisioning.cpp:683-820 | The six settings at the end by name: the requested value if applied, else the old one. |
| Provisioning.Provisioning.PatchField | src/device/provisioning.cpp:683-704 | One field: check, comparison, handler, store, and on a store failure the rollback of runtime and store. |
| Provisioning.InStepIff | src/device/provisioning.cpp:672-681 | For every patch and every mix of failures the running system agrees with the settings at the end iff the first refused field, told from settings, patch and answers, can be taken back in the running system. |
| Provisioning.StopsIff | src/device/provisioning.cpp:672-681 | A command stops early iff some field of it is refused: a new, accepted value that was applied and cannot be stored. |
| Provisioning.LeftRunningOnce | src/device/provisioning.cpp:683-704 | A concrete command that leaves the running system and the settings apart. |
| Provisioning.LeftRunningIs | src/device/provisioning.cpp:683-704 | What then runs is the settings with the refused value in that one field. |
| Provisioning.EveryFieldAnswered | src/device/provisioning.cpp:683-820 | Unless storing fails each requested field gets one outcome, which says truly whether its value was, became or is not the requested one; no other field changes. |
| Provisioning.StateMatchesFields | src/device/provisioning.cpp:822-823 | The overall state is applied iff no field failed, failed iff all did, and partial success otherwise. |
| Provisioning.StepCounts | src/device/provisioning.cpp:665-671 | The counters count the outcomes. |
| Sntp.RoundTripIff | src/device/sntp_client.cpp:54-70 | Reading what was written gives the time back iff it lies in NTP era 0 and is not negative or is a whole second. |
| Sntp.ReadWritten | src/device/sntp_client.cpp:54-70 | What comes back otherwise: the seconds modulo 2^32, and a negative fractional time one second late. |
| Sntp.ReadWrite32 | src/device/sntp_client.cpp:28-40 | Reading four bytes inverts writing them, in network byte order. |
| Sntp.WriteU32 | src/device/sntp_client.cpp:35-40 | Exactly the four bytes at the place are written. |
| Sntp.WriteTimestamp | src/device/sntp_client.cpp:54-62 | Exactly the eight bytes at the place become the timestamp. |
| Sntp.TimestampsWrittenOut | src/device/sntp_client.cpp:54-62 | The eight bytes of Unix time 0, of a time with a fraction, and of the start of 1900. |
| Sntp.EchoAcceptedIff | src/device/sntp_client.cpp:72-94 | For all times: a response is accepted iff its copy of the request time is read as that time and its own two times are not read as 0, and then gives the offset formula; a faithful copy is refused exactly when the time of the request does not survive the round trip. |
| Sntp.ShortResponseRefused | src/device/sntp_client.cpp:72-80 | A response of fewer than 48 bytes is refused. |
| Sntp.ReadsAsZeroIff | src/device/sntp_client.cpp:82-85 | A time is read as 0 iff it is a whole multiple of 2^32 seconds. |
| Sntp.OffsetBound | src/device/sntp_client.cpp:90-90 | For delays d1 and d2 twice the error of the offset is at most the difference of d1 and d2 + 1, hence at most d1 + d2 + 1; equal delays give the exact offset. |
| Playback.EveryRunOk | src/utils/audio_capture_manager.cpp:365-503 | Over every run samples are played in order and none twice; the queue never exceeds its maximum. |
| Playback.OneFate | src/utils/audio_capture_manager.cpp:365-503 | Every sample handed in is exactly one of queued, played and dropped, and played at most once. |
| Playback.FatesAreFinal | src/utils/audio_capture_manager.cpp:365-503 | What was played or dropped stays so, samples never change, and only the mixer plays one. |
| Playback.PushKeepsLast | src/utils/audio_capture_manager.cpp:388-397 | An insertion leaves the last `max` samples of the old queue followed by the new samples. |
| Playback.ClampNeverActs | src/utils/audio_capture_manager.cpp:34-46 | With the gains used the mixed value always fits 16 bits, so the clamp changes nothing. |
| Playback.MixIsSum | src/utils/audio_capture_manager.cpp:34-46 | The mix is the sum of the chime at 0.3548 and the remote voice at 0.3548, or at 0.1778 while ducked, each rounded to the nearest whole number. |
| Playback.DecodeIsTwosComplement | src/utils/audio_capture_manager.cpp:28-32 | The two bytes are read as a little-endian two's complement number. |
| Playback.DecodedAt | src/utils/audio_capture_manager.cpp:28-32 | Sample i is made of bytes 2i and 2i + 1, the low one first. |
| Playback.AudioCaptureManager.Insert | src/utils/audio_capture_manager.cpp:388-397 | The bounded insertion, popping from the front, computes exactly that. |
| Playback.AudioCaptureManager.EnqueuePlaybackFrame | src/utils/audio_capture_manager.cpp:365-416 | A frame of at least one sample is decoded and pushed to its own queue iff playback runs; nothing else changes. |
| Playback.AudioCaptureManager.SetChimeActive | src/utils/audio_capture_manager.cpp:345-355 | Only the start of a new chime round empties the chime queue. |
| Playback.AudioCaptureManager.MixFrame | src/utils/audio_capture_manager.cpp:483-503 | Up to 960 samples leave the front of each queue and every output is the mix of the two samples of its place, a source that has run out being silent and the remote one ducked while there is a chime. |

## Left out

- SQLite itself: transactions are atomic and constraints enforced; a COMMIT that reports an error counts as rolled back. Columns no property speaks of (device, time zone, sizes, creation times) and the migrations of old schema versions are not modelled.
- Opening and closing the database: the store is open while its methods run.
- Integer widths: sequence numbers, counts and times are unbounded, except the 32-bit and 64-bit values of SHA-256, the SDP counters and the NTP fields, which are exact.
- Floating point: scores, boxes, gains and scale are reals; rounding is not modelled. Candidate decoding (DFL, sigmoid, quantisation) comes before the modelled part of `post_process`.
- Stopping the event processor: a run ends where stop() begins; a job that fails while stopping is not requeued, and the next start finds its row. A second start on the same object is not modelled.
- JSON, HTTP uploads, MQTT, logging, LEDs, GPIO and the UI: their success or failure is a parameter where it matters.
- GStreamer, RGA, V4L2 and webrtcbin: only whether reconfiguring the encoder branch works. Offer bookkeeping (`offer_requested_`, ICE candidates) is not modelled.
- `complete_recording` and `register_failed_ring_recording`: side paths around the recording queue; the former takes any status text.
- `update_ring_state` has no guard: `ended` is not a terminal ring state, and nothing is claimed of runs with remote state commands beyond the store invariants. The command that calls it and the media queries are not modelled.
- Fairness and backoff of recording jobs: their `ready_at` is ignored by the code, and no claim is made.
- Order of press reports: none is claimed.
- Camera double buffering: untorn reads rest on timing that is not in the code.
- Calls of the ring lifecycle handler, and the pictures themselves.
- Waiting: condition variables, sleeps and the 30 s wait of `finalize_recording` are not modelled; a turn of a loop is.
- A crash between the rename and a flush of the directory of the settings file is not modelled.
- Small state holders (session handshake, person gate, timestamp rebaser, time-sync backoff, ICE candidate buffer): they would add easy members only.
- StoreTables.ClipsDistinct: speaks of one database; clips written by another installation are covered only by the check for existing files.
- DrawRectangle.DrawRectangle: one model for the four functions, which differ in bytes per pixel; overflow of coordinates near the limits of int is not modelled.
- Playback.AudioCaptureManager.MixFrame: leaves out pacing and the push into the pipeline, whose failure does not bring samples back.
