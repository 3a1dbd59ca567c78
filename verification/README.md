# Model of the FFmpeg front end in RaviReader, and of the FLIR row/column conversion

The project models the parts of the repository that carry state across whole runs and proves what
they keep. `dafny verify dfyconfig.toml` checks everything.

| modules | what they model |
|---|---|
| `VideoSync`, `VideoConservation`, `VideoTiming` | the frame-rate converter: copies per frame in five sync modes, the duplicate and drop counters, the output clock |
| `VideoKeyframes`, `VideoForcedTimes`, `VideoForcedExpressions` | which of the frames it encodes are forced to be key frames |
| `VideoMiscount`, `VideoMissedKeys` | runs of the converter in which the counters or the forcing go wrong |
| `CondVar`, `CondVarUnlocked`, `CondVarOneAtATime`, `Once` | condition variables and one-time initialisation built from OS/2 event semaphores, as atomic steps of any number of threads |
| `Muxer`, `MuxTimestamps`, `MuxBuffering` | buffering before the muxer starts, the hand-over to its thread, and the repair of timestamps |
| `DemuxLoop`, `Discontinuity` | timestamps of looped input, and the correction of jumps |
| `FilterInputs`, `FilterAgreement` | frames queued until all input formats are known, and graphs rebuilt when they change |
| `ForcedKeyframes` | the list of forced key-frame times, the forcing step, and the frames that serve a list |
| `SplitCommandline`, `CommandlineGroups`, `DumpArgument`, `Getopt` | splitting, logging and scanning command lines |
| `FormatListing` | the sorted listing of unsorted format tables |
| `RowMajor` | an image stored by rows rearranged into columns |
| `Numbers`, `Options` | median, rounding, optional values |

Code that changes objects step by step is a class whose methods carry it out; each method is proved
equal to a specification function of the old state, and the lemmas are about that function over one
call, over runs (sequences of calls, packets, frames or thread steps), and over all inputs. Thread
protocols are transition systems: `CondVar.Do` and `Once.Do` give one atomic step of one thread.

## What does not hold

These came out of the proofs. Each is kept as the code has it, with the exact condition and an input or a run.

- The duplicate and drop counters do not always add up to the frames encoded. A flush plans copies
  of the held frame, and counts them, even when no frame is held; a call skipped for too many
  duplicates counts a drop besides the one for the held frame. `VideoConservation.Conservation`
  has both quantities, `VideoConservation.CountersExplainOutput` the exact condition, and
  `VideoMiscount.SecondFlushMiscounts` a run.
- The source modes do not force what the manual says (doc/ffmpeg.texi, lines 1114 to 1122). A frame
  is asked about with its slot in the call as the number of the copy, so a key frame first shown
  behind copies of the frame before it is taken for a copy itself and not forced then:
  `VideoMissedKeys.KeyBehindCopyIsNotForced`. And `source_no_drop` does nothing more than `source`
  (`VideoKeyframes.SourceModesAgree`): the mark of a dropped key frame is set anew in each call for
  the frame of that call (ffmpeg.c:1222), so it is gone when the frame after the dropped one is
  shown (`VideoKeyframes.MarkIsOfThisCall`), even before it is cleared ahead of its only test
  (ffmpeg.c:1144-1145). `VideoMissedKeys.DroppedKeyForcesNothing` is a run; `VideoKeyframes.RulesMetIff`
  says exactly which runs meet the manual's two rules.
- Every forced time forces the first frame not before it (`ForcedKeyframes.FirstIsForced`), but frames
  that are first for no time may be forced too: a frame serves one time only, and the next time then
  falls to the next frame. `ForcedKeyframes.ForcedExactly` has the exact condition,
  `VideoForcedTimes.SharedFirstForcesTwo` a run. And the manual (doc/ffmpeg.texi, lines 1062 to 1065)
  rounds a time to the nearest tick of the encoder's clock first, while the code compares it as it is:
  `ForcedKeyframes.RoundingAgreesIff` says when this makes no difference,
  `VideoForcedTimes.RoundingForcesAnother` is a run in which it does.
- A packet without dts makes the muxer forget the last dts it wrote. `MuxTimestamps.OrderedUnlessForgotten`
  has the exact condition for written times to be in order, `MuxTimestamps.UnknownTimeForgets` a
  stream. Under TS_NONSTRICT one kind of packet is moved a tick too far:
  `MuxTimestamps.NonstrictRepair` and `MuxTimestamps.ClimbsIffRegular` say which,
  `MuxTimestamps.OvertakenIsLate` has a stream.
- The duration of looped input is not a multiple of the first pass's when the longest stream has no
  timestamps: `DemuxLoop.DurationIsMultiple`, and `DemuxLoop.UntimedStreamCountsOnce` for a file.
- Frames that wait for a graph are not kept apart when their size or format changes: the input takes
  over what the last one has, and all go to a source made for that. `FilterAgreement.FramesAgreeIff` has
  the exact condition, `FilterAgreement.MixedFramesReachOneSource` a run.
- Signals that overlap, which only those made without the mutex can, share one acknowledgement.
  `CondVarUnlocked.CanReturnIff` says exactly when a signaller can still return by itself. Two runs
  show what happens when it cannot: `CondVarUnlocked.UnlockedSignalsCanHang` leaves one waiting until
  somebody signals again, and in `CondVarUnlocked.UnlockedSignalCanDeadlock` it keeps the mutex for
  ever. Signals that do not overlap are safe without the mutex (`CondVarOneAtATime.NeverStranded`).
- The transposition reaches all cells only up to 2^32 of them: `RowMajor.EachCellOnce`.

## Model

| member | source | states |
|---|---|---|
| `VideoConservation.Conservation` | RaviReader/ffmpeg/fftools/ffmpeg.c:1187-1256 | in every run of any number of streams, in every sync mode and whatever the encoders answer: frames encoded + drop counter + frames held as dropped + slots lost = frames offered + duplicate counter + drops counted twice |
| `VideoConservation.CountersExplainOutput` | RaviReader/ffmpeg/fftools/ffmpeg.c:1202-1220 | without a recording limit or a refusing encoder, the printed counters account for the output after every call of a run if and only if each call passes a test that can be made before it (no flush without a held frame, no skipped call beyond the one new frame it discards) |
| `VideoConservation.CallCountsRight` | RaviReader/ffmpeg/fftools/ffmpeg.c:1187-1252 | the same for one call: what it loses equals what it counts twice exactly when the test passes |
| `VideoMiscount.SecondFlushMiscounts` | RaviReader/ffmpeg/fftools/ffmpeg.c:1187-1237 | a run of two frames behind gaps and two flushes: the counters are right until the second flush, and wrong after it |
| `VideoConservation.FullCall` | RaviReader/ffmpeg/fftools/ffmpeg.c:1187-1257 | a call with a willing encoder in closed form: what is shown, the frame held and the drop mark, also when it is skipped or finds nothing to flush |
| `VideoConservation.CallBalance` | RaviReader/ffmpeg/fftools/ffmpeg.c:1187-1256 | the law for a single call, with refusals, skips and flushes |
| `VideoConservation.LossIff` | RaviReader/ffmpeg/fftools/ffmpeg.c:1187-1237 | a willing encoder still leaves slots unfilled exactly when a flush finds no held frame, and then the median of the last three copy counts |
| `VideoConservation.FlushPlansMedian` | RaviReader/ffmpeg/fftools/ffmpeg.c:1187-1200 | a flush plans the median of the numbers of old copies in the three calls before it |
| `VideoConservation.FeedAppends` | RaviReader/ffmpeg/fftools/ffmpeg.c:1224-1252 | the encoding loop appends consecutively numbered copies: the held frame first, then the new one, a prefix of them if it stops early |
| `VideoConservation.CallIsBounded` | RaviReader/ffmpeg/fftools/ffmpeg.c:1208-1213 | a call plans at most two frames or thirty times the error threshold, or it is skipped, plans more, and shows nothing |
| `VideoConservation.RecordingStopsAtEnd` | RaviReader/ffmpeg/fftools/ffmpeg.c:1236-1239 | a willing encoder gets exactly the planned frames whose times lie before the recording limit, and if that is not all of them the stream is finished |
| `VideoConservation.EncoderStopsCall` | RaviReader/ffmpeg/fftools/ffmpeg.c:1244-1257 | if the encoder does not take the n-th copy of a new frame, the copies before it are encoded and no more; at end of file the frame is held all the same, and any other failure ends the program |
| `VideoConservation.SentBeforeEnd` | RaviReader/ffmpeg/fftools/ffmpeg.c:1236-1239 | over every run nothing is encoded at or behind the recording limit |
| `VideoConservation.FinishedTakesNothing` | RaviReader/ffmpeg/fftools/ffmpeg.c:1307-1310 | over every run a finished stream takes no more frames |
| `VideoSync.LastReport` | RaviReader/ffmpeg/fftools/ffmpeg.c:1578-1583 | the last report adds to the drop counter exactly the frames still held as dropped and changes nothing else |
| `VideoTiming.DriftAbove` | RaviReader/ffmpeg/fftools/ffmpeg.c:1046-1088 | constant rate: after every complete call the clock is at most half a tick, or the drop threshold, behind the end of the input |
| `VideoTiming.DriftBelow` | RaviReader/ffmpeg/fftools/ffmpeg.c:1046-1088 | constant rate: once at most 2.1 ticks ahead of the input, the clock stays so while frame ends do not go back |
| `VideoTiming.DriftStep` | RaviReader/ffmpeg/fftools/ffmpeg.c:1046-1088 | both drift bounds for one call, also for the later frames of the VSCFR mode |
| `VideoTiming.OutputFollowsInput` | RaviReader/ffmpeg/fftools/ffmpeg.c:1046-1252 | over any stretch of a constant-rate run the number of frames encoded differs from the input time that went by by at most 2.6 ticks |
| `VideoTiming.ShownNearStart` | RaviReader/ffmpeg/fftools/ffmpeg.c:1065-1088 | constant rate: a frame is first shown at most 1.1 ticks before its start and at most 1.1 ticks after its end; at least 0.1 before its start if older copies fill a gap |
| `VideoTiming.ShownWithinSpan` | RaviReader/ffmpeg/fftools/ffmpeg.c:1089-1095 | variable rate: a frame shown lies within 0.6 ticks of its span, and is dropped exactly when it ends that far behind the clock |
| `VideoTiming.ShownAtStart` | RaviReader/ffmpeg/fftools/ffmpeg.c:1089-1095 | variable rate: what a call encodes, if anything, is the new frame, once, at most half a tick from the later of its start and the clock if it ends more than 0.6 ticks after the clock, and on the clock otherwise |
| `VideoTiming.ConstantRateCounts` | RaviReader/ffmpeg/fftools/ffmpeg.c:1076-1088 | constant rate: exactly when a frame is dropped, shown once, or repeated, and how often to the nearest copy, of the old frame and in all |
| `VideoTiming.FirstFrameSetsClock` | RaviReader/ffmpeg/fftools/ffmpeg.c:1069-1075 | the first frame in the VSCFR mode sets the clock to its start, to the nearest tick, exactly if it starts half a tick or more after it, with nothing shown before |
| `Numbers.Rint` | RaviReader/ffmpeg/fftools/ffmpeg.c:1074-1093 | the nearest integer, and the even one of two |
| `VideoTiming.EncodedPts` | RaviReader/ffmpeg/fftools/ffmpeg.c:1046-1252 | for arbitrary input times, over every run: encoded timestamps strictly increase in the CFR, VSCFR and VFR modes and are consecutive integers in the first two |
| `VideoTiming.EncodedInInputOrder` | RaviReader/ffmpeg/fftools/ffmpeg.c:1224-1257 | over every run that does not abort, each stream's frames reach the encoder in input order, whatever is duplicated, dropped or refused |
| `VideoTiming.PassthroughIsTransparent` | RaviReader/ffmpeg/fftools/ffmpeg.c:1096-1099 | the passthrough and drop modes encode every frame once, at its own rounded time, and count nothing |
| `VideoSync.DecideBounds` | RaviReader/ffmpeg/fftools/ffmpeg.c:1046-1104 | never more copies of the old frame than copies in all, for frames of nonnegative length |
| `VideoSync.FrameLength` | RaviReader/ffmpeg/fftools/ffmpeg.c:1171-1185 | the value in each case: the frame's own length, or the filter's interval capped by the one asked for; zero exactly if neither is known |
| `VideoSync.LengthOf` | RaviReader/ffmpeg/fftools/ffmpeg.c:1165-1185 | the length worked out in steps is that one; every frame enters the converter with it |
| `VideoSync.OutputStream.VideoSyncProcess` | RaviReader/ffmpeg/fftools/ffmpeg.c:1037-1104 | the decision of the sync code, with its clipping of early frames, equals a form without clipping |
| `VideoSync.OutputStream.EncodeCopies` | RaviReader/ffmpeg/fftools/ffmpeg.c:1224-1252 | the loop over the planned copies, with the forcing step for each, carries out the recursive specification, including every way it stops |
| `VideoSync.OutputStream.EncodePicture` | RaviReader/ffmpeg/fftools/ffmpeg.c:1236-1251 | one picture: the recording limit, the forcing step, the encoder's answer, and the log and clock after it |
| `VideoSync.OutputStream.CountCopies` | RaviReader/ffmpeg/fftools/ffmpeg.c:1202-1220 | what is added to the two counters, and when a call is skipped |
| `VideoSync.OutputStream.DoVideoOut` | RaviReader/ffmpeg/fftools/ffmpeg.c:1157-1257 | one call's whole effect on the stream and on both counters |
| `VideoSync.OutputStream.Reap` | RaviReader/ffmpeg/fftools/ffmpeg.c:1294-1330 | frames of a finished stream do not reach the converter |
| `Numbers.MidPred` | RaviReader/ffmpeg/libavcodec/mathops.h:99-113 | the median of three: one of the arguments, with two of them on either side |
| `CondVar.CountIsExact` | RaviReader/ffmpeg/compat/os2threads.h:192-208 | in every interleaving in which signals are made holding the mutex, the count is the number of threads between its increment and decrement |
| `CondVar.StepKeepsInv` | RaviReader/ffmpeg/compat/os2threads.h:152-208 | every atomic step of any thread keeps the invariant: mutual exclusion, exact count, the state of the signalling handshake |
| `CondVar.SignalReleasesOne` | RaviReader/ffmpeg/compat/os2threads.h:152-160 | a signal that sees a waiter releases exactly one, moves no other thread, and returns with both semaphores clear |
| `CondVar.BroadcastReleasesAll` | RaviReader/ffmpeg/compat/os2threads.h:162-168 | a broadcast releases exactly the threads waiting at its start, moves no other thread, and returns with both semaphores clear |
| `CondVar.BroadcastTerminates` | RaviReader/ffmpeg/compat/os2threads.h:152-208 | however threads interleave, a running signal or broadcast takes at most about eight steps a waiter |
| `CondVar.ActiveStepDecreases` | RaviReader/ffmpeg/compat/os2threads.h:152-208 | every step of any thread brings a running signal or broadcast nearer to its end |
| `CondVar.ActiveNeverStuck` | RaviReader/ffmpeg/compat/os2threads.h:152-208 | while a signal or broadcast runs some thread can move |
| `CondVar.WaitReturnsLocked` | RaviReader/ffmpeg/compat/os2threads.h:192-208 | in every schedule, bare signals included, a thread that has left a wait held the mutex at that moment |
| `CondVar.WaitAdvances` | RaviReader/ffmpeg/compat/os2threads.h:192-208 | turns of other threads leave a waiter where it is; its own take it through the stages of a wait one by one, past the event only by consuming it and past the end only by taking the free mutex |
| `CondVar.BroadcastReturnsEmpty` | RaviReader/ffmpeg/compat/os2threads.h:162-168 | in every schedule a broadcast that has returned has found nobody counted |
| `CondVar.SignalReturnsAnswered` | RaviReader/ffmpeg/compat/os2threads.h:152-160 | in every schedule a signal that has returned has found nobody counted or taken its acknowledgement |
| `CondVarUnlocked.CanReturnIff` | RaviReader/ffmpeg/compat/os2threads.h:152-208 | mutex or not: once all signals under way have posted, a signal, be it one of a broadcast, can return without a further one if and only if an acknowledgement is there or on its way, or the event is set and some thread waits for it or can come to |
| `CondVarUnlocked.StrandedForGood` | RaviReader/ffmpeg/compat/os2threads.h:152-208 | otherwise it is stranded in every continuation without a further signal or broadcast |
| `CondVarUnlocked.UnlockedSignalsCanHang` | RaviReader/ffmpeg/compat/os2threads.h:152-160 | a run from the start in which two threads signal without the mutex and one of them is stranded |
| `CondVarUnlocked.UnlockedSignalCanDeadlock` | RaviReader/ffmpeg/compat/os2threads.h:152-160 | a run from the start in which one bare signal meets one made holding the mutex, and that one is never released and keeps the mutex, in every continuation, further signals included |
| `CondVarUnlocked.DeadlockedForGood` | RaviReader/ffmpeg/compat/os2threads.h:152-208 | the same for any state in which the mutex is held by a signaller without an acknowledgement and nobody is counted |
| `CondVarOneAtATime.NeverStranded` | RaviReader/ffmpeg/compat/os2threads.h:152-208 | mutex or not: if no signal or broadcast begins while another is under way, no signal is ever stranded, be it one of a broadcast |
| `CondVarOneAtATime.CountIsExactUnlocked` | RaviReader/ffmpeg/compat/os2threads.h:192-208 | and the count is exact in every interleaving |
| `CondVarOneAtATime.SignalWakesOne` | RaviReader/ffmpeg/compat/os2threads.h:152-160 | and a signal that sees a waiter wakes exactly one before it returns with both semaphores clear, whoever else comes to wait meanwhile |
| `CondVarOneAtATime.StepKeepsSingle` | RaviReader/ffmpeg/compat/os2threads.h:152-208 | every such step of any thread keeps the invariant behind all three |
| `CondVarOneAtATime.LockingIsOneAtATime` | RaviReader/ffmpeg/compat/os2threads.h:152-208 | signals and broadcasts made holding the mutex never overlap |
| `Once.RunsOnceBeforeAnyReturn` | RaviReader/ffmpeg/compat/os2threads.h:210-228 | under every interleaving the init routine is entered at most once, and no call returns before it has finished |
| `Once.AllReturn` | RaviReader/ffmpeg/compat/os2threads.h:210-228 | a run that cannot go on has returned every call, with the init routine run exactly once, within six steps a caller |
| `Once.StepKeepsInv` | RaviReader/ffmpeg/compat/os2threads.h:210-228 | every step of any caller keeps the invariant behind both |
| `Once.NeverStuck` | RaviReader/ffmpeg/compat/os2threads.h:210-228 | some caller can move exactly as long as some call has not returned |
| `Once.FastPath` | RaviReader/ffmpeg/compat/os2threads.h:213-214 | once the routine has been run, a call returns with its first step |
| `MuxTimestamps.WrittenIsMaximum` | RaviReader/ffmpeg/fftools/ffmpeg_mux.c:90-127 | for streams that climb: the n-th written dts is the maximum over k up to n of the k-th wanted time plus n - k steps (a step is 1, or 0 under TS_NONSTRICT) |
| `MuxTimestamps.WrittenIsLeast` | RaviReader/ffmpeg/fftools/ffmpeg_mux.c:90-127 | no other choice of times in order and not before the wanted ones is earlier at any packet |
| `MuxTimestamps.WrittenInOrder` | RaviReader/ffmpeg/fftools/ffmpeg_mux.c:90-127 | for all known times: written dts strictly increase (under TS_NONSTRICT never decrease), and dts is not after pts |
| `MuxTimestamps.StrictRepair` | RaviReader/ffmpeg/fftools/ffmpeg_mux.c:90-127 | for any known pts and dts, even dts after pts: dts' = max(last + 1, min(pts, dts)) and pts' = max(pts, dts') |
| `MuxTimestamps.NonstrictRepair` | RaviReader/ffmpeg/fftools/ffmpeg_mux.c:90-127 | under TS_NONSTRICT the same form without the + 1 holds if and only if not pts <= last < dts; in that case the packet is one tick late |
| `MuxTimestamps.NeverDecodedLate` | RaviReader/ffmpeg/fftools/ffmpeg_mux.c:90-127 | known or unknown times, every setting: a packet with both times known is never written with dts after pts |
| `MuxTimestamps.OneTimeUnknown` | RaviReader/ffmpeg/fftools/ffmpeg_mux.c:90-127 | an unknown pts stays so while the dts is moved up past the last; with an unknown dts nothing is changed |
| `MuxTimestamps.RejectedIff` | RaviReader/ffmpeg/fftools/ffmpeg_mux.c:110-121 | where a late packet is an error, it is one exactly if its own dts lies before the next allowed |
| `MuxTimestamps.OtherStreams` | RaviReader/ffmpeg/fftools/ffmpeg_mux.c:90-106 | other streams than audio, video and subtitles: only a packet with dts after pts is changed, to one time for both |
| `MuxTimestamps.NotRepaired` | RaviReader/ffmpeg/fftools/ffmpeg_mux.c:76-90 | formats without timestamps, and video in the drop mode, which loses both times |
| `MuxTimestamps.WrittenDuration` | RaviReader/ffmpeg/fftools/ffmpeg_mux.c:79-88 | the duration is the one a constant frame rate imposes on video, if any, and the size is kept |
| `MuxTimestamps.NeighboursInOrder` | RaviReader/ffmpeg/fftools/ffmpeg_mux.c:90-127 | neighbouring packets with known dts are written in order even if others have none |
| `MuxTimestamps.OrderedUnlessForgotten` | RaviReader/ffmpeg/fftools/ffmpeg_mux.c:90-127 | any known or unknown times: the known dts of a stream are written in order if and only if no packet behind one without dts asks for less than the last known dts written plus the step |
| `MuxTimestamps.StaysInOrder` | RaviReader/ffmpeg/fftools/ffmpeg_mux.c:90-127 | the same for one more packet |
| `MuxTimestamps.UnknownTimeForgets` | RaviReader/ffmpeg/fftools/ffmpeg_mux.c:90-127 | a stream that is not: a packet without dts lets the written times go back from 10 to 5 |
| `MuxTimestamps.ClimbsIffRegular` | RaviReader/ffmpeg/fftools/ffmpeg_mux.c:90-127 | all times known: every written dts is the wanted time moved up past the last by the step if and only if no TS_NONSTRICT packet has pts <= last < dts; strict streams, and those with dts <= pts, always |
| `MuxTimestamps.OvertakenIsLate` | RaviReader/ffmpeg/fftools/ffmpeg_mux.c:90-127 | a TS_NONSTRICT stream of two packets whose second is written one tick late |
| `MuxTimestamps.WrittenClimbs` | RaviReader/ffmpeg/fftools/ffmpeg_mux.c:90-127 | the recurrence behind the maximum, and the pts that goes with it |
| `Muxer.MuxStream.FixTimestamps` | RaviReader/ffmpeg/fftools/ffmpeg_mux.c:76-126 | the in-place repair, with its sum-less-minimum-less-maximum guess, is the median-and-raise specification; when it is an error instead |
| `Muxer.MuxStream.WritePacket` | RaviReader/ffmpeg/fftools/ffmpeg_mux.c:61-155 | each of the four outcomes, what it changes and what it leaves alone |
| `MuxBuffering.BufferingIsInvisible` | RaviReader/ffmpeg/fftools/ffmpeg_mux.c:239-320 | two lives of a stream with the same accepted submissions but different starting moments and limits send the same packets: those before the first end of stream, in order |
| `MuxBuffering.SentInOrder` | RaviReader/ffmpeg/fftools/ffmpeg_mux.c:239-320 | whatever is refused or fails, the packets sent are a prefix of those submitted before the end of stream |
| `MuxBuffering.LifeIsHealthy` | RaviReader/ffmpeg/fftools/ffmpeg_mux.c:239-320 | in every reachable state before the start the buffer is exactly what was submitted, its byte count is their size, and nothing was sent; afterwards it is empty |
| `MuxBuffering.WelcomedExactly` | RaviReader/ffmpeg/fftools/ffmpeg_mux.c:239-259 | with a thread queue that takes everything, a started stream has sent exactly the packets before the end of stream and is finished exactly if that was submitted |
| `MuxBuffering.NothingRefused` | RaviReader/ffmpeg/fftools/ffmpeg_mux.c:261-301 | a stream whose packets together stay within the data threshold has none refused |
| `MuxBuffering.RefusedOnlyOverLimits` | RaviReader/ffmpeg/fftools/ffmpeg_mux.c:261-301 | exactly when a packet is refused before the start, in terms of what was submitted; never among the first eight |
| `MuxBuffering.QueueIsBounded` | RaviReader/ffmpeg/fftools/ffmpeg_mux.c:261-301 | in every reachable state a queue longer than eight and than the allowed number has its first half, and one packet more, within the data threshold |
| `MuxBuffering.RoomDoubles` | RaviReader/ffmpeg/fftools/ffmpeg_mux.c:267-284 | within the data threshold the room is the least of 8, 16, 32 and so on that holds the packets |
| `MuxBuffering.TotalSizeCounts` | RaviReader/ffmpeg/fftools/ffmpeg_mux.c:267-295 | what the data threshold counts: the bytes of the packets, and nothing for an end of stream |
| `MuxBuffering.RoomOverThreshold` | RaviReader/ffmpeg/fftools/ffmpeg_mux.c:267-284 | over it, a full buffer grows to the allowed number at most, and to twice its size |
| `MuxBuffering.NegativeLimitIsNone` | RaviReader/ffmpeg/fftools/ffmpeg_mux.c:267-284 | a negative limit on the number of packets limits nothing, since it is compared as an unsigned number |
| `MuxBuffering.FailsIffBroken` | RaviReader/ffmpeg/fftools/ffmpeg_mux.c:239-259 | an offer fails exactly if an open stream meets a broken thread queue; one whose receiver is gone just ends the stream |
| `MuxBuffering.DrainFailsOnlyIfBroken` | RaviReader/ffmpeg/fftools/ffmpeg_mux.c:430-438 | flushing fails only for that reason |
| `MuxBuffering.DrainTracks` | RaviReader/ffmpeg/fftools/ffmpeg_mux.c:430-438 | flushing a buffer sends what submitting its packets one by one would have sent |
| `Muxer.MuxStream.QueuePacket` | RaviReader/ffmpeg/fftools/ffmpeg_mux.c:261-301 | the new buffer, its growth, and when there is no room |
| `Muxer.MuxStream.ThreadSubmitPacket` | RaviReader/ffmpeg/fftools/ffmpeg_mux.c:239-259 | the effect of one offer to the thread queue for each of its answers |
| `Muxer.MuxStream.DrainQueue` | RaviReader/ffmpeg/fftools/ffmpeg_mux.c:430-438 | the flushing loop carries out the recursive specification and stops at a failure |
| `Muxer.MuxerThread.SubmitPacket` | RaviReader/ffmpeg/fftools/ffmpeg_mux.c:303-320 | packets go to the buffer before the start and to the thread queue after it |
| `Muxer.MuxerThread.ThreadStart` | RaviReader/ffmpeg/fftools/ffmpeg_mux.c:398-442 | all buffers are flushed, each stream's own; after a failure the streams behind it are untouched |
| `Muxer.MuxStream.constructor` | RaviReader/ffmpeg/fftools/ffmpeg_mux_init.c:193-205 | a new stream: eight free places, nothing written |
| `DemuxLoop.DurationAfterPasses` | RaviReader/ffmpeg/fftools/ffmpeg_demux.c:102-167 | the duration after n passes over the same packets: the longest stream of any kind once, then the longest with timestamps for each further pass |
| `DemuxLoop.DurationIsMultiple` | RaviReader/ffmpeg/fftools/ffmpeg_demux.c:102-167 | it is n times the first one if and only if no stream without timestamps is longer than all those with them (or n is at most 1) |
| `DemuxLoop.UntimedStreamCountsOnce` | RaviReader/ffmpeg/fftools/ffmpeg_demux.c:102-117 | a file for which it is not: a stream without timestamps lasts 100, the other 1, and two passes take 101 |
| `DemuxLoop.PassesDoNotOverlap` | RaviReader/ffmpeg/fftools/ffmpeg_demux.c:204-222 | a reported stream's pts of one pass lie at least its last frame's length before those of the next |
| `DemuxLoop.DecodingTimesMoveOn` | RaviReader/ffmpeg/fftools/ffmpeg_demux.c:204-222 | its dts of one pass lie before those of the next exactly where they spread by less than the duration grows; where they spread no more than the pts, by the last frame's length |
| `DemuxLoop.PassSpans` | RaviReader/ffmpeg/fftools/ffmpeg_demux.c:204-222 | a pass widens each stream's span by its own span, shifted by the duration so far |
| `DemuxLoop.LapsAreMultiples` | RaviReader/ffmpeg/fftools/ffmpeg_demux.c:102-117 | the closed form of the duration and its bound by n times the longest stream |
| `DemuxLoop.Demuxer.TsFixup` | RaviReader/ffmpeg/fftools/ffmpeg_demux.c:186-222 | one packet: wrap-around corrected, offset and scaled, then shifted by the duration so far; the stream's span and its correction flag, all other streams unchanged |
| `DemuxLoop.InputStream.Prepare` | RaviReader/ffmpeg/fftools/ffmpeg_demux.c:186-212 | the part before the shift, and when the wrap correction is done |
| `DemuxLoop.UnwrappedIsNearest` | RaviReader/ffmpeg/fftools/ffmpeg_demux.c:186-202 | within a period of the file's start the corrected time is the reading of the counter nearest to the start |
| `DemuxLoop.PreparedKeepsOrder` | RaviReader/ffmpeg/fftools/ffmpeg_demux.c:186-212 | a packet's dts stays not after its pts unless the counter wrapped between them |
| `DemuxLoop.MovesByOffset` | RaviReader/ffmpeg/fftools/ffmpeg_demux.c:204-212 | at scale one every time moves by exactly the offset, so a file whose offset is minus its start begins at zero |
| `DemuxLoop.ScaledIsNear` | RaviReader/ffmpeg/fftools/ffmpeg_demux.c:204-212 | at any scale the result is less than a tick from the scaled sum, and no farther from zero |
| `DemuxLoop.UnwrappedWhen` | RaviReader/ffmpeg/fftools/ffmpeg_demux.c:186-202 | exactly when a time is corrected for a wrap-around, and by how much |
| `DemuxLoop.CorrectionStops` | RaviReader/ffmpeg/fftools/ffmpeg_demux.c:186-202 | the correction is over once a packet has come that it leaves as it is, and not before |
| `DemuxLoop.LengthNeverOverflows` | RaviReader/ffmpeg/fftools/ffmpeg_demux.c:105-109 | a stream's length is its span and last frame where these fit into 64 bits, and its last frame otherwise |
| `DemuxLoop.Demuxer.IfileDurationUpdate` | RaviReader/ffmpeg/fftools/ffmpeg_demux.c:102-117 | the duration after one report, with the overflow guard |
| `DemuxLoop.Demuxer.SeekToStart` | RaviReader/ffmpeg/fftools/ffmpeg_demux.c:119-167 | all reports in order, and one loop fewer left unless looping is endless |
| `FilterInputs.InputsAreFifos` | RaviReader/ffmpeg/fftools/ffmpeg.c:1870-1974 | in every run, for every input: frames given to its sources, then its queue, are the frames accepted, in order; a graph exists only with all formats known and all queues empty; the end of file comes once, after all frames, and exactly if the input has ended |
| `FilterInputs.RefusedWhen` | RaviReader/ffmpeg/fftools/ffmpeg.c:1870-1948 | exactly when a frame is refused, from what is known before the call |
| `FilterInputs.NoSecondRebuild` | RaviReader/ffmpeg/fftools/ffmpeg.c:1870-1948 | after a frame that was not refused, another one with the same properties needs no rebuild: it goes to the source, or to the queue if there is still no graph |
| `FilterAgreement.ConfiguredSend` | RaviReader/ffmpeg/fftools/ffmpeg.c:1880-1938 | what a frame does to a configured graph: one that agrees with its input in format, hardware context, display matrix, and size or rate and layout, leaves it in place; one that does not has it rebuilt for itself, or, with reinitialisation off, only if the hardware context or the matrix differs |
| `FilterAgreement.FramesAgreeIff` | RaviReader/ffmpeg/fftools/ffmpeg.c:1880-1938 | with reinitialisation on: throughout a run every frame waiting for or given to the source of an input agrees with the input, if and only if no frame that differs from those waiting ever joins them |
| `FilterAgreement.MixedFramesReachOneSource` | RaviReader/ffmpeg/fftools/ffmpeg.c:1915-1924 | a run of three frames in which a large frame goes to a source made for small ones |
| `FilterInputs.EndedWhen` | RaviReader/ffmpeg/fftools/ffmpeg.c:1950-1974 | the end of an input: which parameters it then has, and exactly when it fails |
| `FilterInputs.FilterGraph.IfilterSendFrame` | RaviReader/ffmpeg/fftools/ffmpeg.c:1870-1948 | one decoded frame: parameters, queueing, rebuilding and delivery |
| `FilterInputs.FilterGraph.CheckParameters` | RaviReader/ffmpeg/fftools/ffmpeg.c:1880-1911 | which changes of a frame's properties call for a new graph, and what the input then takes over |
| `FilterInputs.FilterGraph.IfilterSendEof` | RaviReader/ffmpeg/fftools/ffmpeg.c:1950-1974 | the end of an input, with and without a graph |
| `FilterInputs.FilterGraph.HasAllInputFormats` | RaviReader/ffmpeg/fftools/ffmpeg.c:1859-1868 | true exactly if every audio and video input has a format |
| `FilterInputs.FilterGraph.DrainQueues` | RaviReader/ffmpeg/fftools/ffmpeg_filter.c:1087-1093 | every queue is emptied into its own source, in order |
| `FilterInputs.FilterGraph.ReplayEofs` | RaviReader/ffmpeg/fftools/ffmpeg_filter.c:1095-1104 | every input that has ended passes that on to its source |
| `FilterInputs.FilterGraph.ConfigureFiltergraph` | RaviReader/ffmpeg/fftools/ffmpeg_filter.c:962-1104 | the rebuilt graph, or none if the library refuses it |
| `FilterInputs.FilterGraph.CleanupFiltergraph` | RaviReader/ffmpeg/fftools/ffmpeg_filter.c:928-936 | all sources go, queues and parameters stay |
| `ForcedKeyframes.ParseForcedKeyFrames` | RaviReader/ffmpeg/fftools/ffmpeg_mux_init.c:1764-1816 | the result is sorted and holds exactly the times of the tokens, for any number of chapters; it fails exactly when a token does; every slot allotted is filled |
| `ForcedKeyframes.AllTimesAreTokens` | RaviReader/ffmpeg/fftools/ffmpeg_mux_init.c:1780-1810 | the times of a list are exactly those of its tokens, and it is rejected exactly if one of them is |
| `ForcedKeyframes.ChapterTimes` | RaviReader/ffmpeg/fftools/ffmpeg_mux_init.c:1786-1803 | `chapters` with a time behind it stands for every chapter's start that much later |
| `ForcedKeyframes.SingleTime` | RaviReader/ffmpeg/fftools/ffmpeg_mux_init.c:1804-1807 | any other token stands for the one time it is parsed as |
| `ForcedKeyframes.StoreToken` | RaviReader/ffmpeg/fftools/ffmpeg_mux_init.c:1786-1807 | one token fills its slots and leaves one free slot for each token to come |
| `ForcedKeyframes.TokensSplit` | RaviReader/ffmpeg/fftools/ffmpeg_mux_init.c:1771-1784 | the tokens are the pieces between the commas: joined they give the text, and there is one more than commas |
| `ForcedKeyframes.QSortSorts` | RaviReader/ffmpeg/fftools/ffmpeg_mux_init.c:1759-1813 | sorting gives an ordered permutation |
| `ForcedKeyframes.ServedClosedForm` | RaviReader/ffmpeg/fftools/ffmpeg.c:1115-1118 | frames in order of time: the number of forced times served is the least over all moments of those due then plus one for each frame since |
| `ForcedKeyframes.ServingIsOptimal` | RaviReader/ffmpeg/fftools/ffmpeg.c:1115-1118 | no assignment of forced times to different frames not before them serves more |
| `ForcedKeyframes.UnforcedMeansServed` | RaviReader/ffmpeg/fftools/ffmpeg.c:1115-1118 | if a frame serves no time, every forced time up to it was served before |
| `ForcedKeyframes.ServedNotBefore` | RaviReader/ffmpeg/fftools/ffmpeg.c:1115-1118 | each forced time is served by one frame, and not before it is due |
| `ForcedKeyframes.ServedWhenTurn` | RaviReader/ffmpeg/fftools/ffmpeg.c:1115-1118 | frames in order of time: the times served so far are those whose turn has come, the turn of a time being the first frame not before it, but behind the turn of the time ahead of it in the list |
| `ForcedKeyframes.ServingTurn` | RaviReader/ffmpeg/fftools/ffmpeg.c:1115-1118 | a frame serves a time exactly if it is the turn of one, and then of that one only |
| `ForcedKeyframes.FirstIsForced` | RaviReader/ffmpeg/fftools/ffmpeg.c:1115-1118 | whatever the order of the frames, every time forces the first frame not before it |
| `ForcedKeyframes.ForcedExactly` | RaviReader/ffmpeg/fftools/ffmpeg.c:1115-1118 | frames in order of time: a frame is forced if and only if it is the first for some time, or at some moment before it more times came due than there were frames since to serve them |
| `ForcedKeyframes.RoundingAgreesIff` | RaviReader/ffmpeg/fftools/ffmpeg.c:1115-1116 | the manual rounds a time to the nearest tick before it looks for the frame, and the code does not: they mean the same frame if and only if no frame is at that tick with the time itself behind it |
| `ForcedKeyframes.KeyframeForceCtx.Apply` | RaviReader/ffmpeg/fftools/ffmpeg.c:1106-1154 | the branches and variables carry out the forcing step the results below are about |
| `VideoKeyframes.ForcedBySource` | RaviReader/ffmpeg/fftools/ffmpeg.c:1221-1251 | both source modes, over every run: the frames forced are exactly the key frames shown in the first slot of their call |
| `VideoKeyframes.SourceModesAgree` | RaviReader/ffmpeg/fftools/ffmpeg.c:1140-1147 | over every run `source_no_drop` and `source` encode and force the same frames and count alike |
| `VideoKeyframes.MarkIsOfThisCall` | RaviReader/ffmpeg/fftools/ffmpeg.c:1221-1230 | at every slot of a call the mark of a dropped key frame is that of the frame the same call drops, or clear; it is clear whenever a new frame is shown, so also when a frame after a dropped one is |
| `VideoKeyframes.RulesMetIff` | RaviReader/ffmpeg/fftools/ffmpeg.c:1140-1251 | over runs with willing encoders: each shown key frame is forced when first shown if and only if no call shows one behind copies of the frame before; and for each dropped one the next frame is forced if and only if every call shows a key frame first whenever one is due; both tests are made on the plan before the call |
| `VideoKeyframes.CallMeetsRules` | RaviReader/ffmpeg/fftools/ffmpeg.c:1140-1251 | the same for one call |
| `VideoMissedKeys.DroppedKeyForcesNothing` | RaviReader/ffmpeg/fftools/ffmpeg.c:1140-1251 | a run of three frames, from the start, in either source mode: the key frame is dropped and nothing is forced |
| `VideoMissedKeys.KeyBehindCopyIsNotForced` | RaviReader/ffmpeg/fftools/ffmpeg.c:1140-1251 | a run of two frames in which the key frame, behind a gap, is shown twice and forced neither time |
| `VideoForcedTimes.ForcedAreServing` | RaviReader/ffmpeg/fftools/ffmpeg.c:1115-1118 | over runs with willing encoders the frames forced are exactly those that serve a time, one each |
| `VideoForcedTimes.ForcedAreMost` | RaviReader/ffmpeg/fftools/ffmpeg.c:1115-1118 | in the pacing modes no assignment of the times to encoded frames not before them forces more |
| `VideoForcedTimes.ForcedAtTurns` | RaviReader/ffmpeg/fftools/ffmpeg.c:1115-1118 | and forced are exactly the frames whose turn it is to serve a time |
| `VideoForcedTimes.FirstFramesForced` | RaviReader/ffmpeg/fftools/ffmpeg.c:1115-1118 | over runs with willing encoders, in every sync mode, every time forces the first frame encoded that is not before it |
| `VideoForcedTimes.ForcedFramesExactly` | RaviReader/ffmpeg/fftools/ffmpeg.c:1115-1118 | and in the pacing modes the frames forced are exactly these and those met by a backlog |
| `VideoForcedTimes.SharedFirstForcesTwo` | RaviReader/ffmpeg/fftools/ffmpeg.c:1115-1118 | a run of two frames and the same time given twice: both frames are forced, the second of which is first for no time |
| `VideoForcedTimes.RoundingAgreesInRuns` | RaviReader/ffmpeg/fftools/ffmpeg.c:1115-1116 | over every run in the pacing modes: exactly when the frame the manual means by a time is the first not before it |
| `VideoForcedTimes.RoundingForcesAnother` | RaviReader/ffmpeg/fftools/ffmpeg.c:1115-1116 | a run of two frames and a time a quarter of a tick behind the first: the manual means the first frame, and the second is forced |
| `VideoForcedExpressions.ForcedByExpression` | RaviReader/ffmpeg/fftools/ffmpeg.c:1119-1139 | over runs with willing encoders each frame is forced exactly if the expression holds of the variables the manual describes: its number, the number forced, the last one forced and its time, and its own time, from the first frame on |
| `Discontinuity.DeliveredIsShifted` | RaviReader/ffmpeg/fftools/ffmpeg.c:3411-3493 | every time delivered is the input's plus the offset now in force |
| `Discontinuity.DeliveredIsExpected` | RaviReader/ffmpeg/fftools/ffmpeg.c:3411-3493 | formats with jumps: the dts delivered is within the threshold of the expected one, and equal to it after a correction; other formats: within the threshold or blank |
| `Discontinuity.BlankedIff` | RaviReader/ffmpeg/fftools/ffmpeg.c:3444-3457 | formats without jumps: a time is blanked if and only if it lies more than the error threshold from the expected one, and delivered otherwise |
| `Discontinuity.CorrectedIff` | RaviReader/ffmpeg/fftools/ffmpeg.c:3428-3443 | formats with jumps: exactly when a correction is made, and the offset after it |
| `Discontinuity.FirstPacketFollows` | RaviReader/ffmpeg/fftools/ffmpeg.c:3458-3470 | a packet of which nothing is expected follows the file's last time exactly if it lies more than the threshold from it, in formats with jumps |
| `Discontinuity.CopiedIsLeftAlone` | RaviReader/ffmpeg/fftools/ffmpeg.c:3415-3428 | with timestamps to be kept a packet is left alone unless a wrap-around explains its time ten times better |
| `Discontinuity.LastTimeIsDelivered` | RaviReader/ffmpeg/fftools/ffmpeg.c:3472-3493 | the file's last time is the latest dts delivered for audio or video |
| `Discontinuity.SpacingKept` | RaviReader/ffmpeg/fftools/ffmpeg.c:3475-3493 | for any interleaving of streams: between two packets with the same offset in force all differences of times are those of the input |
| `Discontinuity.NeverShifted` | RaviReader/ffmpeg/fftools/ffmpeg.c:3411-3473 | formats without jumps, and copied timestamps with counters of 60 bits or more, are never shifted |
| `Discontinuity.InputFile.TsDiscontinuityDetect` | RaviReader/ffmpeg/fftools/ffmpeg.c:3411-3473 | the nested tests carry out the case distinction the lemmas are about |
| `Discontinuity.InputFile.TsDiscontinuityProcess` | RaviReader/ffmpeg/fftools/ffmpeg.c:3475-3493 | offset first, then the search, for audio and video packets with a dts |
| `DumpArgument.LineReadsBack` | RaviReader/ffmpeg/fftools/cmdutils.c:441-463 | an unquoting reader applied to the logged line returns exactly the original arguments, for all byte strings, empty ones included |
| `DumpArgument.LinesAreDistinct` | RaviReader/ffmpeg/fftools/cmdutils.c:491-496 | two command lines are logged alike only if they are the same |
| `DumpArgument.LineEnds` | RaviReader/ffmpeg/fftools/cmdutils.c:441-463 | the logged line is printable text with one line break, at its end |
| `DumpArgument.QuoteReadsBack` | RaviReader/ffmpeg/fftools/cmdutils.c:441-463 | the same round trip for one argument, whatever follows it |
| `DumpArgument.BareIff` | RaviReader/ffmpeg/fftools/cmdutils.c:445-450 | an argument is logged bare if and only if it consists of letters, digits and a few other characters |
| `DumpArgument.EscapedIff` | RaviReader/ffmpeg/fftools/cmdutils.c:452-461 | which bytes stand for themselves inside quotes, which get a backslash, and which are written in hexadecimal |
| `DumpArgument.ReportFile.DumpArgument` | RaviReader/ffmpeg/fftools/cmdutils.c:441-463 | byte by byte, the quoted argument is appended |
| `DumpArgument.ReportFile.WriteCommandLine` | RaviReader/ffmpeg/fftools/cmdutils.c:491-496 | the loop appends the whole line |
| `CommandlineGroups.SplitUndoesWriting` | RaviReader/ffmpeg/fftools/cmdutils.c:693-797 | writing any expressible command line and splitting it gives back its global options and its files with their options, in order, with nothing left over |
| `CommandlineGroups.EachOptionInOnePlace` | RaviReader/ffmpeg/fftools/cmdutils.c:608-646 | in every run, also one ending in an error, each option lands once, in order, in the global list, a closed group or the open one |
| `CommandlineGroups.LexReadsBack` | RaviReader/ffmpeg/fftools/cmdutils.c:693-797 | reading back written items gives the same items and no error |
| `CommandlineGroups.ItemReadsBack` | RaviReader/ffmpeg/fftools/cmdutils.c:723-787 | the same for one item in front of any words |
| `SplitCommandline.FoundIff` | RaviReader/ffmpeg/fftools/cmdutils.c:182-191 | an option is found under its name, with or without a stream specifier, and the first such wins; none only if there is none |
| `SplitCommandline.PlacedByFlags` | RaviReader/ffmpeg/fftools/cmdutils.c:636-646 | which options go to the files and which to the program |
| `SplitCommandline.FileWord` | RaviReader/ffmpeg/fftools/cmdutils.c:714-722 | which words name files: those without a dash in front, a single dash, and any behind `--` |
| `SplitCommandline.NegatedMeans` | RaviReader/ffmpeg/fftools/cmdutils.c:775-784 | `nofoo` is the boolean option `foo` |
| `SplitCommandline.StopsWhen` | RaviReader/ffmpeg/fftools/cmdutils.c:723-787 | exactly when reading stops at an option, and with which error |
| `SplitCommandline.OptionParseContext.Split` | RaviReader/ffmpeg/fftools/cmdutils.c:693-797 | the splitting loop, with its index arithmetic for `--`, refines a recursive grammar, errors included |
| `SplitCommandline.OptionParseContext.SplitWord` | RaviReader/ffmpeg/fftools/cmdutils.c:706-787 | one word, whatever it is, in terms of the whole reading |
| `SplitCommandline.OptionParseContext.SplitOption` | RaviReader/ffmpeg/fftools/cmdutils.c:723-787 | one option: the item read and the words used, or the error and no change |
| `SplitCommandline.OptionParseContext.FinishGroup` | RaviReader/ffmpeg/fftools/cmdutils.c:608-631 | the open options become a group of the given kind and the open group is empty |
| `SplitCommandline.OptionParseContext.AddOpt` | RaviReader/ffmpeg/fftools/cmdutils.c:636-646 | global options go to the global list, the others to the open group |
| `SplitCommandline.MatchGroupSeparator` | RaviReader/ffmpeg/fftools/cmdutils.c:588-600 | the first group from the given one on that just that option ends; none only if there is no such group |
| `Getopt.ParseReadsBack` | RaviReader/ffmpeg/compat/getopt.c:41-84 | options written in clusters of any shape before any operands are read back exactly, letters that are no options are reported as such, and reading stops at the first operand or behind `--` |
| `Getopt.MissingReadsBack` | RaviReader/ffmpeg/compat/getopt.c:66-72 | the same with a last option whose argument is missing, which is reported |
| `Getopt.DeclaredReadsBack` | RaviReader/ffmpeg/compat/getopt.c:55-65 | an option string declares exactly its letters, and those with a colon behind them as taking an argument |
| `Getopt.SeenOf` | RaviReader/ffmpeg/compat/getopt.c:55-84 | what the caller sees of an option, and of the two errors |
| `Getopt.ScanWritten` | RaviReader/ffmpeg/compat/getopt.c:41-84 | the same for repeated calls on a whole argument vector: the values seen by the caller and the final `optind` |
| `Getopt.WordReadsBack` | RaviReader/ffmpeg/compat/getopt.c:41-84 | one cluster, and its argument in the same or the next word |
| `Getopt.Scanner.GetoptLoop` | RaviReader/ffmpeg/compat/getopt.c:41-84 | calling until the end yields the options of a recursive grammar, errors included, and the grammar's final position |
| `Getopt.Scanner.Getopt` | RaviReader/ffmpeg/compat/getopt.c:41-84 | one call takes one option off what is left and moves (optind, sp) up lexicographically; at the end it takes none |
| `Getopt.Scanner.TakeArgument` | RaviReader/ffmpeg/compat/getopt.c:65-75 | an argument is the rest of the word or the next word; a missing one is reported |
| `FormatListing.ShowFormatsDevices` | RaviReader/ffmpeg/fftools/opt_common.c:845-906 | the printed names strictly increase and are exactly the admitted names above "000", with E and D exactly if an admitted muxer or demuxer has the name; the loop ends |
| `FormatListing.ListingIsUnique` | RaviReader/ffmpeg/fftools/opt_common.c:845-906 | there is only one such list |
| `FormatListing.ListedExactly` | RaviReader/ffmpeg/fftools/opt_common.c:845-906 | a name is listed with exactly the flags of the tables asked for, devices only where just these are |
| `FormatListing.LessIsLexicographic` | RaviReader/ffmpeg/fftools/opt_common.c:867-871 | names are ordered as in a dictionary |
| `FormatListing.NextFormat` | RaviReader/ffmpeg/fftools/opt_common.c:859-897 | one round finds the least admitted name above the last one, with both flags right |
| `FormatListing.ScanMuxers` | RaviReader/ffmpeg/fftools/opt_common.c:865-878 | the least muxer name above the last one |
| `FormatListing.ScanDemuxers` | RaviReader/ffmpeg/fftools/opt_common.c:879-894 | the least of that and the demuxer names, whether it changed, and whether a demuxer has it |
| `FormatListing.LessIsTransitive` | RaviReader/ffmpeg/fftools/opt_common.c:867-871 | `strcmp` orders names transitively |
| `FormatListing.LessIsTotal` | RaviReader/ffmpeg/fftools/opt_common.c:867-871 | and totally |
| `RowMajor.RowMajorToColMajor` | script/FlirMovieReaderMex.cpp:54-63 | the loops fill the destination with the transposed image, for every image 32-bit indices can reach |
| `RowMajor.TransposedTwice` | script/FlirMovieReaderMex.cpp:54-63 | transposing again with the sizes exchanged restores the image |
| `RowMajor.TransposedIsUnique` | script/FlirMovieReaderMex.cpp:54-63 | the result is determined by the image: no destination cell keeps its old content |
| `RowMajor.EachCellOnce` | script/FlirMovieReaderMex.cpp:54-63 | the loops reach every cell if and only if there are at most 2^32 of them |
| `RowMajor.NoCellTwice` | script/FlirMovieReaderMex.cpp:54-63 | then no two elements go to the same cell |

## Left out

- VideoSync.OutputStream.VideoSyncProcess: floating-point arithmetic is exact; `llrint` rounds to the nearest integer, ties to even, and the narrowing of a rounded `double` or a 64-bit count to `int` is not modelled. Computing the frame's start on the encoder's clock (`adjust_frame_pts_to_encoder_tb`) and resolving the automatic sync mode come before.
- VideoSync.OutputStream.DoVideoOut: the encoder and its queue are a list of answers, one for each frame offered. Picture quality, logging and the duplicate warning are left out.
- VideoSync.FrameLength: the two frame rates and the frame's own length arrive already expressed in encoder ticks.
- VideoTiming.DriftAbove: about calls carried out in full; a skipped or refused call leaves the clock where it is.
- VideoTiming.DriftStep: the first frame of the VSCFR mode, which may set the clock, is covered by `VideoTiming.EncodedPts` and `VideoTiming.FirstFrameSetsClock` only.
- CondVar.StepKeepsInv: waits are untimed and signals are made holding the mutex (`CondVarUnlocked` and `CondVarOneAtATime` are about those that are not; broadcasts without it are left out). `pthread_cond_timedwait`, which acknowledges even after a timeout, is not part of this model; an event is auto-reset, a mutex excludes, and memory is sequentially consistent, by assumption.
- CondVarUnlocked.CanReturnIff: before all signals under way have posted, and with further signals allowed, it is left open who returns.
- CondVar.BroadcastTerminates: counts steps taken; that a thread able to move is eventually scheduled is up to the system.
- Once.AllReturn: the same, and the init routine is one step that returns.
- Muxer.MuxStream.WritePacket: rescaling, bitstream filters, logging and the container writer are outside; the writer's answer and the file size are parameters. Timestamps are unbounded integers.
- Muxer.MuxStream.DrainQueue: leaves the byte count as it is, because the source reads a packet's size after the packet was moved away; the count has a meaning before the start only.
- Muxer.MuxStream.QueuePacket: allocation never fails, and sums of sizes do not overflow.
- Muxer.MuxerThread.ThreadStart: thread creation always succeeds; waiting for the headers of all streams (`mux_check_init`), which only decides when this is called, and the session description are left out.
- DemuxLoop.Demuxer.TsFixup: one time base for all streams, so that the duration and the offset need no rescaling; scaling is exact up to the final truncation, and repeated pictures are left out. The lemmas about passes take the packets as prepared, the same in each pass.
- DemuxLoop.Demuxer.SeekToStart: the reported last-frame lengths are inputs; seeking itself and its failure are left out.
- ForcedKeyframes.ParseForcedKeyFrames: the time parser is any function; `qsort` is any correct sort; chapter starts arrive rescaled; allocation and overflow failures are left out.
- ForcedKeyframes.KeyframeForceCtx.Apply: the user's expression is any function of the variables; times are microseconds as reals.
- VideoKeyframes.RulesMetIff: runs with a refusing encoder or a recording limit are covered by `VideoKeyframes.ForcedBySource` only; copies of a key frame already shown may be forced again, which the manual leaves open.
- VideoForcedTimes.ForcedAreServing: a frame the encoder refuses may use up a forced time; such runs are left out here and in `VideoForcedExpressions.ForcedByExpression`.
- FilterInputs.FilterGraph.IfilterSendFrame: the filter library accepts or refuses a graph as a parameter says, hardware contexts and display matrices are compared by identity, and frames inside the graph are not followed. A frame lost because the new graph is refused does not count as received.
- FilterInputs.FilterGraph.ConfigureFiltergraph: buffer sources take every frame before their end of file; the queue of subtitle frames is left out.
- Discontinuity.InputFile.TsDiscontinuityProcess: all time bases are microseconds, thresholds are multiplied exactly, and the expected dts is an input because decoding sets it.
- SplitCommandline.OptionParseContext.Split: the lookup of library options is any function of name and value, their dictionaries are lists in order, and preparing the arguments on Windows, messages and the terminator of the option table are left out.
- CommandlineGroups.SplitUndoesWriting: about command lines the grammar can express; a group ended by a bare word must be of the first kind, and a negated option must not be taken for a library option.
- Getopt.Scanner.Getopt: error messages are left out.
- FormatListing.ShowFormatsDevices: whether a format is a device is given; long names and the heading are left out.
- RowMajor.RowMajorToColMajor: source and destination elements have one type, and the arrays do not overlap; dispatch on image types is left out.
- The Optris SDK, the libav* libraries, the thread and sync queues, terminal, signals, help, hardware devices and the MEX dispatch are not part of this model.
