# Verified models of the vDS bridge

Models, in Dafny 4.11, of the parts of the virtual DualSense bridge that move data between a USB host and
Bluetooth controllers, with proofs of what they guarantee. `dafny verify dfyconfig.toml` checks them.

The components and their files:

* **Linux virtual host controller** (`module/vds_hcd_core.c`, with the feature cache of
  `module/vds_usb_core.c`): `HcdUrbs` is the URB life cycle as a state machine with one step per spin-lock
  region, `HcdInvariants` the proof that every step keeps its invariant, `HcdTheorems` what follows for
  whole runs, `HcdThread` the giveback thread and its sleep, `HcdContexts` which contexts each region refers
  to, `HcdRegions` and `HcdEffects` what each region does to the fields and what unlinking comes to,
  `HcdDriver` the driver's structure and methods proved against the machine. `HcdPacing`
  holds the real-time arithmetic, `HcdMicQueue` the microphone queue, `HcdIso` the isochronous transfers.
* **Windows virtual USB driver** (`windrv/vds_usb/vds_usb.c`): `WinDelayedUrb` is the protocol of delayed
  completions over all interleavings, `WinRings` the two byte rings, `WinReads` how the threads of the
  driver complete read requests, `WinFrames` the framed stream and its reader in
  `src/platform/win32/vds_io.cc`.
* **Protocol arithmetic and audio framing** (`src/vds_protocol.cc`): `Crc`, `PcmResample`, `PcmExtractor`.
* **Linux daemon** (`src/platform/linux/vdsd.cc`): `VdsdPorts` assigns ports to controllers, `VdsdState`
  defers and coalesces Bluetooth state and audio.
* **Windows services**: `UsbipMic` and `UsbipPacer` (`src/platform/win32/vds_usbip.cc`), `BtOutputQueue`
  (`src/platform/win32/vds_bt.cc`), `FilterWait` (`windrv/vds_filter/vds_filter.c`).
* **Configuration** (`src/jsonl.cc`, `src/vds_config.cc`): `Jsonl` and its language in `JsonlGrammar`,
  `VdsConfig`, `ConfigDb` and the texts it reads in `ConfigFormat`.
* `VdsTypes` holds small shared definitions.

Two shapes recur. Where the program changes state step by step, a class has its fields and methods, a
ghost field holds the state of a pure machine that the fields stand for, and each method is proved to take
that machine's step; what the program promises is then proved about all runs of the machine. Where the
program computes, a function says what it computes and lemmas say what that means.

Inputs of the environment are parameters: the clock, what the Bluetooth link or the frame queue answers to
an attempt to send, whether a timer can be created, how many bytes a read returns. A step of a machine is
one lock region, or one call between regions.

Where a promise does not hold of the code as it stands the exact condition is proved instead, with a
concrete run that shows the failure:

* A URB can wait for a feature report that is cached: while the reply that cached it is between its two
  lock regions, and when a reply fell between the URB's look-up and its deferral
  (`HcdTheorems.WaitsForCachedExactly`, `NoWaitForCachedFeature`, `WaitsInsideReply`, `WaitsAfterReply`).
* A request frame that is refused uses a freed context if and only if its URB was returned since its
  deferral (`HcdContexts.FaultsExactly`, `StopFreesBeforeTheRequest`). It is not if no reply with its id, no
  dequeue of it, no disconnect and no stop came in between (`AskedInTime`). What the driver does from such
  a use on is undefined: a run of the model stands for a run of the driver up to there.
* A completion that is due, be it a control transfer at the head of the list or one zeroed by a dequeue,
  waits while the giveback thread sleeps for a completion that was at the head before
  (`HcdThread.UntimedIsReturnedExactly`, `UntimedWaitsForAudio`), but not longer than until that one's due
  time (`SleepIsBounded`).
* A HID IN URB can wait after the stop if and only if one was linked and had not tried the input buffer
  when the stop came (`HcdTheorems.StopIsFinalExactly`).
* A HID IN URB that succeeds carries a report if and only if it has a buffer or no length
  (`HcdTheorems.SuccessIsTruthful`, `SucceedsWithNothing`).
* A waiter can be told an older generation than its own, by a notifier that advanced before it and was
  overtaken (`FilterWait.BehindOnlyIfOvertaken`, `SlowNotifierReportsThePast`).
* A read request of the Windows driver can be completed with nothing while the stream goes on, which its
  reader takes for the end; that needs two threads in the loop that completes requests
  (`WinReads.EmptyExactly`, `OneThreadIsEnough`, `TwoThreadsCanEmpty`).
* Its read requests carry the stream in the order they were issued if and only if they are filled in that
  order (`WinReads.StreamExactly`, `TwoThreadsCanExchange`); one thread in the loop or one request
  outstanding is enough (`OneThreadIsEnough`, `OneRequestIsEnough`).

Three more conditions are preconditions on what the program is given; each has an input outside it:

* An ISO completion covers its PCM exactly when the play time fits 32 bits (`HcdPacing.DurationCoversPcm`,
  `OverlongTransferIsRushed`). Whether a host submits a transfer of more than an hour is outside the model.
* Coalesced chunks fit a frame exactly when every descriptor does (`HcdIso.IsoOutDelivers`,
  `LongDescriptorIsRefused`); a larger one is refused by the frame queue and its PCM dropped.
* A JSON key survives printing exactly when it needs no escape (`Jsonl.KeySurvives`, `QuoteCutsKey`); the
  keys the program prints need none. The parser also refuses the flags that `jsonl_bool_field` prints
  (`ParsesBackExactly`); the program prints them in status replies only.

Some branches of the code turn out never to be taken: the clamps of the resamplers
(`PcmResample.LerpConvex`), the removal of an equal pending state after an audio report
(`VdsdState.FlushOutputs`), and, as long as no reload throws, those of the Linux daemon for a controller
whose port is not in its list (`VdsdPorts.VdsDaemon`). A reload that throws while it opens a new device
(`src/platform/linux/vdsd.cc:1434-1444`) has already moved ports out of the list and can leave it without
a controller's port; those branches are for that case, which is not modelled.

## Model

| member | source | states |
|---|---|---|
| `HcdTheorems.EveryUrbInOnePlace` | module/vds_hcd_core.c:352-410 | In every reachable state, as long as no region has used a freed context, each accepted URB is in exactly one of: inside urb_enqueue, pending HID, pending feature, completed, in giveback, returned; no list holds one twice; nothing else is on a list |
| `HcdContexts.OnlyARefusalUsesFreed` | module/vds_hcd_core.c:1206-1250 | In every reachable state every region refers to contexts of live URBs only, but for a refused request frame, which refers to its own: that is freed if and only if the URB has been returned |
| `HcdContexts.FaultsExactly` | module/vds_hcd_core.c:1206-1250 | Over any run a freed context has been used if and only if a request was refused whose URB had been returned before |
| `HcdContexts.AskedInTime` | module/vds_usb_core.c:393-405 | A refusal is harmless if no reply with its id, no dequeue of the URB, no disconnect and no stop came between the deferral and the request frame |
| `HcdContexts.StopFreesBeforeTheRequest` | module/vds_hcd_core.c:203-207 | A stop in between, after which the frame is always refused: a concrete run that uses the freed context |
| `HcdTheorems.EnqueueGoesOn` | module/vds_hcd_core.c:1161-1252 | In every reachable state the thread inside urb_enqueue has a region to enter that brings its URB nearer to being queued or pending |
| `HcdTheorems.ReturnedForGood` | module/vds_hcd_core.c:589-648 | Over any further run what was given back stays given back and is never live again |
| `HcdTheorems.StopReturnsEveryUrb` | module/vds_hcd_core.c:1446-1462 | Stop in any reachable state, whatever follows: once all enqueues have ended, the last due time is past and the giveback thread does not sleep past it, the thread returns every URB ever accepted, each exactly once, but for late HID IN URBs that no dequeue took |
| `HcdTheorems.StoppedStaysQuiet` | module/vds_hcd_core.c:1161-1188 | After stop nothing is accepted, no URB waits for a feature report, the live URBs only shrink, and only a URB that was linked and had not tried the input buffer can come to wait for input |
| `HcdTheorems.StopIsFinalExactly` | module/vds_hcd_core.c:1139-1159 | A HID IN URB can wait after the stop if and only if one was linked and had not tried the buffer when the stop came |
| `HcdThread.DrainReturns` | module/vds_hcd_core.c:589-632 | Rounds of the awake giveback thread on due completions return exactly those, in their order |
| `HcdThread.DueIsReturnedExactly` | module/vds_hcd_core.c:609-628 | Completions that are due are returned at a time if and only if the thread does not sleep past it |
| `HcdThread.SleepIsBounded` | module/vds_hcd_core.c:612-628 | At the end of its sleep, which is the due time of the entry it found not due, the thread finds the head due, whatever was queued, zeroed or cancelled meanwhile |
| `HcdTheorems.NextReturns` | module/vds_hcd_core.c:624-632 | Only a giveback returns a URB, and exactly the one picked; every other step returns none |
| `HcdTheorems.CompletedAlwaysOrdered` | module/vds_hcd_core.c:352-396 | In every reachable state the completed list is ordered: timed entries by due time, first queued first on ties; what was queued untimed in its order and never behind a timed one; the only untimed entries among timed ones are those zeroed in place by a dequeue |
| `HcdThread.UntimedIsReturnedExactly` | module/vds_hcd_core.c:366-378 | What was queued untimed, a control transfer say, has nothing ahead that is not due, and is returned at a time if and only if the thread does not sleep past it |
| `HcdThread.UntimedWaitsForAudio` | module/vds_hcd_core.c:614-627 | A control transfer at the head of the list waits until the audio behind it is due: a concrete run |
| `HcdTheorems.InputAlwaysFresh` | module/vds_hcd_core.c:673-715 | A waiting HID IN URB and a buffered report never coexist; the buffer holds at most one report, the newest; reports reach URBs in the order written, none twice |
| `HcdTheorems.WaitsForCachedExactly` | module/vds_usb_core.c:374-405 | A waiting URB's report is cached if and only if a reply came to the cache after the URB's look-up with no clearing since; and no reply for it has ended since the URB's deferral |
| `HcdTheorems.NoWaitForCachedFeature` | module/vds_usb_core.c:374-405 | No URB waits for a report that is cached if no reply for its id is between its two lock regions and none came to the cache between the URB's look-up and its deferral |
| `HcdTheorems.WaitsInsideReply` | module/vds_hcd_core.c:780-804 | A URB waits while the reply that cached its report is between its regions: a concrete run |
| `HcdTheorems.WaitsAfterReply` | module/vds_hcd_core.c:233-251 | A URB waits though the reply is over, which fell between its look-up and its deferral: a concrete run |
| `HcdTheorems.SuccessIsTruthful` | module/vds_hcd_core.c:650-777 | A feature URB that succeeds carries a report of its id; a HID IN URB that succeeds carries one that was written if and only if it has a buffer or no length |
| `HcdTheorems.SucceedsWithNothing` | module/vds_hcd_core.c:650-657 | Without a buffer a HID IN URB takes the report, succeeds and carries nothing: a concrete run |
| `HcdTheorems.IsoNeverFasterThanRealTime` | module/vds_hcd_core.c:1064-1115 | In every reachable state the due times of two ISO completions of a direction are at least the PCM of the later ones apart |
| `HcdTheorems.IsoNeverSlowerWhileBusy` | module/vds_hcd_core.c:1089-1114 | If each later one queues behind the one before and carries 1 ms or more, they are less than 1 us per URB further apart |
| `HcdTheorems.HidInSpaced` | module/vds_hcd_core.c:659-671 | HID IN completions of one connection scheduled since the profile was set are each at least that profile's interval apart |
| `HcdPacing.DurationCoversPcm` | module/vds_hcd_core.c:1064-1101 | The computed duration covers the PCM if and only if its play time fits the 32-bit variable, and then overshoots by under 1 us |
| `HcdPacing.ShortTransfers` | module/vds_hcd_core.c:1064-1101 | Less than a millisecond of PCM takes a millisecond, no PCM one for each descriptor |
| `HcdPacing.OverlongTransferIsRushed` | module/vds_hcd_core.c:1096-1100 | A transfer that plays for 2^32 + 1 us is given 1 ms |
| `HcdPacing.ComputeDurationUs` | module/vds_hcd_core.c:1064-1101 | The loop with its 32-bit total computes that duration |
| `HcdPacing.RateBound` | module/vds_hcd_core.c:1103-1114 | Due times scheduled one after the other are at least the sum of the PCM apart |
| `HcdPacing.BacklogDrift` | module/vds_hcd_core.c:1103-1114 | and at most that plus the rounding while each queues behind the last |
| `HcdEffects.UnlinkCompletes` | module/vds_hcd_core.c:1264-1278 | In every reachable state, unlinking an URB that is not inside urb_enqueue, not unlinked yet and not in giveback puts it on the completed list and no other, with the given status and due at once; every other URB, and the order of the others on each list, stay as they are. Any other unlinking changes nothing |
| `HcdEffects.UnlinkedHasFailed` | module/vds_hcd_core.c:1264-1278 | In every reachable state an unlinked URB is completed or in giveback, due at once, with a nonzero status |
| `HcdEffects.CompletedIsFinal` | module/vds_hcd_core.c:352-396 | Over any further run a completed URB keeps status, due time and data until it is returned, unless it is unlinked for the first time |
| `HcdEffects.UnlinkedIsReturned` | module/vds_hcd_core.c:589-632 | An unlinked URB is returned, right after what stands ahead of it, at any time by which that is due and the thread does not sleep past |
| `HcdRegions.EnqueueExactly` | module/vds_hcd_core.c:1161-1252 | What becomes of a submission undisturbed, by kind: refused when stopping, completed with which status and due when, or left waiting; no other URB notices |
| `HcdRegions.LinkExactly` | module/vds_hcd_core.c:1178-1199 | A new URB starts undecided, decided by its endpoint, or failed with -EPIPE for audio without a buffer |
| `HcdRegions.AudioDueExactly` | module/vds_hcd_core.c:1103-1115 | An ISO completion is due its duration after the later of now and the due time before it in its direction; the other direction does not notice |
| `HcdRegions.InputTakenExactly` | module/vds_hcd_core.c:1139-1159 | A HID IN URB takes the buffered report, due an interval after the later of now and the report before, or waits behind all others |
| `HcdRegions.ReportServesOldest` | module/vds_hcd_core.c:719-743 | A written report completes the URB that waited longest, with it and in its time, and touches no other; if none waits it is all that is buffered; refused if empty, over 64 bytes or stopping |
| `HcdRegions.LookUpExactly` | module/vds_usb_core.c:218-234 | A feature request gets the cached report, fails with -EPIPE if it has no buffer for it, or is remembered as missed |
| `HcdRegions.DeferExactly` | module/vds_hcd_core.c:231-251 | and then waits behind all others, or fails with -ESHUTDOWN when stopping |
| `HcdRegions.AskExactly` | module/vds_usb_core.c:396-405 | A refused request completes its URB with the refusal, due at once, unless that was completed before; one that was sent changes nothing |
| `HcdRegions.SettleExactly` | module/vds_hcd_core.c:440-452 | A decided URB is completed with what was decided, due when it was scheduled for |
| `HcdRegions.CancelExactly` | module/vds_hcd_core.c:398-410 | A disconnect or the stop fails everything that waits with -ESHUTDOWN, due at once, and nothing else; buffered input is dropped, and a disconnect starts pacing afresh |
| `HcdRegions.PickExactly` | module/vds_hcd_core.c:609-632 | The awake thread takes the head if it is untimed or due within a microsecond, and else sleeps until it is due unless told to stop |
| `HcdRegions.CachedIsNewest` | module/vds_usb_core.c:126-141 | In every reachable state a report is cached if and only if it is the newest valid one of its id that came in since the cache was cleared, whole and unchanged |
| `HcdInvariants.NextKeepsInv` | module/vds_hcd_core.c:352-1462 | Every lock region of the controller keeps the whole invariant, in any order |
| `HcdInvariants.RunKeepsInv` | module/vds_hcd_core.c:352-1462 | and so does every run |
| `HcdInvariants.GivebackOrdered` | module/vds_hcd_core.c:352-396 | Both insertion rules keep the completed list ordered |
| `HcdInvariants.DequeueKeepsInv` | module/vds_hcd_core.c:1254-1286 | Unlinking keeps the invariant, also when it zeroes the due time of a queued completion in place |
| `HcdInvariants.CompleteReplyMatches` | module/vds_hcd_core.c:758-804 | A feature reply completes all and only the URBs waiting for its id, each with the report or an error if it has no buffer for it |
| `HcdInvariants.CompleteReplyKeepsInv` | module/vds_hcd_core.c:780-804 | and keeps the invariant |
| `HcdInvariants.CancelListed` | module/vds_hcd_core.c:398-410 | A cancellation empties both pending lists and completes each URB in them |
| `HcdDriver.VdsHcdDev.FindGivebackPosition` | module/vds_hcd_core.c:366-393 | The two list searches find the place before the first completion due later |
| `HcdDriver.VdsHcdDev.QueueUrbGivebackLocked` | module/vds_hcd_core.c:352-396 | Updates the lists in place as the step says; false exactly if the URB was completed before |
| `HcdDriver.VdsHcdDev.CancelPendingUrbsLocked` | module/vds_hcd_core.c:398-410 | Both loops together are the cancellation; reports whether anything was queued, for which the caller signals the thread's wait queue (that does not end a sleep) |
| `HcdDriver.VdsHcdDev.FillAndScheduleHidIn` | module/vds_hcd_core.c:650-671 | Copies the report if there is a buffer, and advances the direction's due time |
| `HcdDriver.VdsHcdDev.WriteInputFrame` | module/vds_hcd_core.c:719-743 | An input report completes the oldest waiting URB or replaces the buffered report; refused if empty, over 64 bytes or stopping |
| `HcdDriver.VdsHcdDev.UpdateFeatureReply` | module/vds_usb_core.c:126-141 | First region of a feature reply: the cache holds the report under its id |
| `HcdDriver.VdsHcdDev.WriteFeatureReply` | module/vds_hcd_core.c:780-804 | Second region: the loop over the waiting URBs is the reply step |
| `HcdDriver.VdsHcdDev.CopyCachedFeatureReport` | module/vds_usb_core.c:218-234 | First region of a feature request: answers it from the cache or finds nothing |
| `HcdDriver.VdsHcdDev.DeferFeatureGet` | module/vds_hcd_core.c:231-251 | Second region: the URB waits, unless the device stops |
| `HcdDriver.VdsHcdDev.RequestFeature` | module/vds_usb_core.c:396-405 | The request frame: if it is refused the waiting URB fails with that error; says whether the context was gone, which the driver does not test |
| `HcdDriver.VdsHcdDev.LinkUrb` | module/vds_hcd_core.c:1184-1199 | First region of an enqueue: links the URB, unless the device stops or the core refuses |
| `HcdDriver.VdsHcdDev.InterruptIn` | module/vds_hcd_core.c:1139-1159 | Takes the buffered report or leaves the URB waiting |
| `HcdDriver.VdsHcdDev.ScheduleIsoGiveback` | module/vds_hcd_core.c:1064-1115 | Sets the URB's due time and the direction's |
| `HcdDriver.VdsHcdDev.QueueUrbGiveback` | module/vds_hcd_core.c:440-452 | Last region of an enqueue: queues the decided URB |
| `HcdDriver.VdsHcdDev.UrbEnqueue` | module/vds_hcd_core.c:1161-1252 | With no other thread between its regions, every kind of URB takes the regions of its kind; refused exactly when stopping or not linked |
| `HcdDriver.VdsHcdDev.UrbDequeue` | module/vds_hcd_core.c:1254-1286 | Marks the URB unlinked, completes it with the status and moves it to the completed list, or zeroes its due time there; reports exactly that, for which it signals the thread's wait queue (that does not end a sleep) |
| `HcdDriver.VdsHcdDev.SetConnection` | module/vds_hcd_core.c:900-938 | The locked part of connect and disconnect |
| `HcdDriver.VdsHcdDev.PickCompleted` | module/vds_hcd_core.c:589-632 | The thread takes the head of the list if it is due and else sleeps until it is, unless it is told to stop |
| `HcdDriver.VdsHcdDev.EndSleep` | module/vds_hcd_core.c:617-627 | Its timer ends the sleep |
| `HcdDriver.VdsHcdDev.StopGivebackThread` | module/vds_hcd_core.c:600-626 | Telling it to stop ends the sleep for good |
| `HcdDriver.VdsHcdDev.GivebackPicked` | module/vds_hcd_core.c:634-644 | and returns exactly that URB |
| `HcdDriver.VdsHcdDev.HcdStop` | module/vds_hcd_core.c:1446-1462 | Stop takes the stop step and leaves both pending lists empty |
| `HcdMicQueue.RunKeepsFifo` | module/vds_hcd_core.c:519-550 | Over any run the queue is the end of the stream of bytes accepted, at most 19200 bytes; accepted = delivered + dropped + flushed + held |
| `HcdMicQueue.NextFillContinuesStream` | module/vds_hcd_core.c:519-550 | Every fill continues the stream where it stands, with silence only beyond its end |
| `HcdMicQueue.DropsAreForced` | module/vds_hcd_core.c:826-843 | A write drops exactly when it would not fit, and then leaves the queue within one packet of its cap |
| `HcdMicQueue.DropCountLeast` | module/vds_hcd_core.c:826-843 | and no fewer packets would do |
| `HcdMicQueue.MicQueue.WriteAudioInFrame` | module/vds_hcd_core.c:806-855 | The packets, their count and the byte counter follow the specification; refused if empty or stopping |
| `HcdMicQueue.MicQueue.FillAudioIn` | module/vds_hcd_core.c:519-550 | Reading across packets, with partly read ones kept in place, is one read of the stream padded with zeros |
| `HcdMicQueue.MicQueue.FlushBufferedFrames` | module/vds_hcd_core.c:425-432 | A flush empties the queue and its counters |
| `HcdIso.IsoOutUrb` | module/vds_hcd_core.c:454-517 | The loop offers non-empty chunks that together are the in-range descriptors' bytes in order, counts the out-of-range ones, totals the lengths in 32 bits, and sets every descriptor's status and length |
| `HcdIso.IsoOutDelivers` | module/vds_hcd_core.c:454-517 | The same of the chunks as specified, with all of them fitting a frame if and only if every in-range descriptor does |
| `HcdIso.LongDescriptorIsRefused` | module/vds_hcd_core.c:495-500 | A descriptor of 4097 bytes becomes a chunk no frame can carry |
| `HcdIso.RunsConservePcm` | module/vds_hcd_core.c:485-514 | The chunks are non-empty stretches of the buffer that together are the in-range descriptors' PCM in order |
| `HcdIso.RunsFitFrames` | module/vds_hcd_core.c:495-500 | All chunks fit a 4096-byte frame if and only if every descriptor does |
| `HcdIso.CoalescingIsOptimal` | module/vds_hcd_core.c:485-509 | No way of grouping contiguous PCM into frames needs fewer of them |
| `HcdIso.ErrorsCount` | module/vds_hcd_core.c:468-475 | The error count is the number of descriptors that reach beyond the buffer |
| `HcdIso.InUrbKeepsRest` | module/vds_hcd_core.c:558-579 | No byte outside the descriptors changes |
| `HcdIso.IsoInUrb` | module/vds_hcd_core.c:552-587 | Each in-range descriptor is filled with at most 1 ms at its offset; errors and totals are counted |
| `HcdIso.InUrbIsOneRead` | module/vds_hcd_core.c:552-587 | However the URB is cut, what its descriptors get is one read of the queue |
| `HcdIso.InUrbPlacesData` | module/vds_hcd_core.c:558-579 | Each non-overlapping descriptor finds its own stretch of that read at its offset |
| `WinDelayedUrb.AtMostOnceInOrder` | windrv/vds_usb/vds_usb.c:1004-1155 | For every interleaving: no completion, frame or timer deletion happens twice; frame before completion before deletion |
| `WinDelayedUrb.ExactlyOnceWhenDone` | windrv/vds_usb/vds_usb.c:1004-1155 | A request whose completion is over was completed once, its frame queued once if it had one, its timer deleted once |
| `WinDelayedUrb.NeverStranded` | windrv/vds_usb/vds_usb.c:1019-1155 | A request that is not done always has a step that brings it closer |
| `WinDelayedUrb.NeverSetBack` | windrv/vds_usb/vds_usb.c:1019-1155 | and no step of any thread sets it back |
| `WinDelayedUrb.PendingCountsSlots` | windrv/vds_usb/vds_usb.c:761-771 | The pending counters are the numbers of occupied slots; with all requests done they are zero and no slot is taken |
| `WinDelayedUrb.DelayedExactly` | windrv/vds_usb/vds_usb.c:1043-1106 | A request is delayed if and only if its frame has at most 4096 bytes, a timer could be created and its queue has none; else its caller completes it; no other request or queue notices |
| `WinDelayedUrb.SettledExactly` | windrv/vds_usb/vds_usb.c:1019-1155 | Who completes it is settled by its timer's expiry, or by a purge that stops the timer first, and by nothing else |
| `WinDelayedUrb.FreedExactly` | windrv/vds_usb/vds_usb.c:1029-1036 | A queue is free again if and only if a purge takes its timer or that timer's own callback empties the slot |
| `WinDelayedUrb.NotBeforeExpiry` | windrv/vds_usb/vds_usb.c:1019-1155 | Nothing of a delayed request happens before that |
| `WinDelayedUrb.NextKeepsInv` | windrv/vds_usb/vds_usb.c:1019-1155 | Every lock region and call keeps the protocol's invariant |
| `WinDelayedUrb.DelayedUrbs.AdjustEndpointDelayedPending` | windrv/vds_usb/vds_usb.c:761-771 | Changes the counter of the endpoint, if it has one |
| `WinDelayedUrb.DelayedUrbs.CompleteUrbAfterDelay` | windrv/vds_usb/vds_usb.c:1043-1106 | Arms a timer in a free slot; refuses a long frame, a failed creation or a taken slot and then deletes the timer |
| `WinDelayedUrb.DelayedUrbs.StartDelayedTimer` | windrv/vds_usb/vds_usb.c:1108-1111 | Starts the armed timer, also if a purge took it meanwhile |
| `WinDelayedUrb.DelayedUrbs.DelayedTimerClearSlot` | windrv/vds_usb/vds_usb.c:1029-1036 | The callback empties the slot only if it holds its own timer |
| `WinDelayedUrb.DelayedUrbs.FlushTakeTimer` | windrv/vds_usb/vds_usb.c:1124-1135 | A purge takes the timer out of the slot |
| `WinDelayedUrb.DelayedUrbs.FlushStopTimer` | windrv/vds_usb/vds_usb.c:1141-1150 | and completes the request itself exactly if the timer was waiting to expire |
| `WinFrames.FrameLayout` | include/uapi/vds.h:90-95 | Where each byte of a frame lies: type, flags, length and sequence number, least significant byte first, then the payload |
| `WinFrames.DecodeEncode` | src/platform/win32/vds_io.cc:158-173 | Reading a frame undoes writing it, whatever follows |
| `WinFrames.RecoverPrefix` | src/platform/win32/vds_io.cc:158-173 | Of a stream cut anywhere the reader gets exactly the frames that lie whole before the cut |
| `WinFrames.ReadHandle.ReadExact` | src/platform/win32/vds_io.cc:122-137 | Collects exactly the bytes asked for, in however many pieces they come; reports the end if and only if the stream ends, as long as no request is completed with nothing |
| `WinFrames.ReadHandle.ReadFrame` | src/platform/win32/vds_io.cc:158-173 | Decodes one frame off the stream; refuses one over 4096 bytes |
| `WinReads.EmptyExactly` | windrv/vds_usb/vds_usb.c:915-940 | In every interleaving a read request is filled with nothing if and only if the ring is empty by then, and that only after another thread took bytes since this one's test |
| `WinReads.TurnExactly` | windrv/vds_usb/vds_usb.c:900-942 | One undisturbed turn of the loop completes the request that waited longest with as many of the oldest bytes as it has room for, if there are both; otherwise the thread leaves and nothing else changes |
| `WinReads.OneThreadIsEnough` | windrv/vds_usb/vds_usb.c:900-942 | With one thread at the loop no request is completed with nothing, and requests carry the stream, and complete, in the order issued |
| `WinReads.TwoThreadsCanEmpty` | windrv/vds_usb/vds_usb.c:915-940 | With two one can be, even with one request at a time, though the stream goes on: a concrete run |
| `WinReads.StreamExactly` | windrv/vds_usb/vds_usb.c:923-939 | In every interleaving what the requests carry, in the order they were issued, is the stream if and only if those with bytes were filled in that order |
| `WinReads.OrderedBytes` | windrv/vds_usb/vds_usb.c:923-939 | and then their bytes are those written, as far as taken |
| `WinReads.OneRequestIsEnough` | windrv/vds_usb/vds_usb.c:3151-3177 | With at most one request outstanding they are filled in that order, whatever the threads do |
| `WinReads.TwoThreadsCanExchange` | windrv/vds_usb/vds_usb.c:923-939 | With two requests outstanding two threads can exchange what they carry: a concrete run |
| `WinRings.AppendUnrolled` | windrv/vds_usb/vds_usb.c:867-880 | The two copies at the tail append, wherever the ring wraps |
| `WinRings.Ring.WriteLocked` | windrv/vds_usb/vds_usb.c:867-880 | The ring's contents grow by exactly the bytes |
| `WinRings.Ring.ReadLocked` | windrv/vds_usb/vds_usb.c:882-898 | A read takes the bytes off the front, up to the count asked for |
| `WinRings.Ring.AudioInWriteLocked` | windrv/vds_usb/vds_usb.c:1302-1333 | The ring holds the newest bytes of its old contents and the payload, up to its size |
| `WinRings.NewestTwice` | windrv/vds_usb/vds_usb.c:1302-1333 | Which is the same however the PCM is cut into writes |
| `WinRings.Ring.CopyAudioInPcm` | windrv/vds_usb/vds_usb.c:1392-1428 | What there is, then silence |
| `WinRings.PortState.QueueFrame` | windrv/vds_usb/vds_usb.c:958-1002 | A frame is queued whole, numbered next, exactly if it fits; else nothing changes |
| `WinRings.PortState.CompleteControlRead` | windrv/vds_usb/vds_usb.c:900-941 | A read request takes what there is |
| `WinRings.PortState.ReaderRecovers` | windrv/vds_usb/vds_usb.c:958-1002 | In every state a reader of the bytes taken so far has exactly the accepted frames, numbered 1, 2, 3 and on, that lie whole in them |
| `Crc.TableStep` | src/vds_protocol.cc:265-273 | One table look-up is eight single shifts |
| `Crc.LookUpStep` | src/vds_protocol.cc:265-273 | and is the standard's register update by a byte |
| `Crc.Crc32TableEntry` | src/vds_protocol.cc:160-165 | The masked shifts of a table entry are the polynomial's |
| `Crc.MakeCrc32Table` | src/vds_protocol.cc:167-175 | The table holds the eight-fold shift of every byte |
| `Crc.Crc32Seeded` | src/vds_protocol.cc:265-273 | The loop computes the bit-serial CRC of section 8 of RFC 1952 from the complemented seed |
| `Crc.SeedsCoverPrefix` | src/vds_protocol.cc:28-29 | Each seed stands for its prefix byte: the seeded CRC is that of prefix and data |
| `Crc.FillOutputReportChecksum` | src/vds_protocol.cc:434-445 | The last four bytes are the little-endian CRC of 0xa2 and the rest; refused below four bytes |
| `Crc.FillFeatureReportChecksum` | src/vds_protocol.cc:447-458 | The same with 0x53 |
| `Crc.FeatureSetPacket` | src/vds_protocol.cc:473-489 | A feature packet carries its checksum if it has room for one |
| `Crc.ResidueTest` | src/vds_protocol.cc:434-458 | Data ends in its own checksum if and only if the CRC register over all of it is one constant |
| `Crc.PacketPasses` | src/vds_protocol.cc:460-489 | So every packet with a checksum passes that test |
| `Crc.BurstsAreDetected` | src/vds_protocol.cc:265-282 | Two packets that differ only within four bytes in a row have different CRCs |
| `Crc.FeedBitsIsShifts` | src/vds_protocol.cc:160-165 | Feeding bits is shifting the sum of register and bits |
| `PcmResample.LerpConvex` | src/vds_protocol.cc:195-205 | Interpolation stays between its neighbours, is exact at a sample, and fits 32 bits, so its clamp never acts |
| `PcmResample.ResampleSpeakerPcm` | src/vds_protocol.cc:206-229 | The loops compute the block, all indices inside the window |
| `PcmResample.BlockExactly` | src/vds_protocol.cc:206-229 | Each sample of the block is the two samples around its place weighted by their distance, rounded toward zero |
| `PcmResample.BlockStaysInRange` | src/vds_protocol.cc:206-229 | No sample of the block leaves the window's range |
| `PcmResample.BlockOfSameLength` | src/vds_protocol.cc:206-229 | A window of 480 frames comes out unchanged |
| `PcmResample.BeginsInOrder` | src/vds_protocol.cc:236-239 | The haptics pieces cut the window into consecutive parts, none empty from 32 frames on |
| `PcmResample.ResampleHapticsPcm` | src/vds_protocol.cc:231-256 | The loops compute the means of those pieces |
| `PcmResample.HapticsExactly` | src/vds_protocol.cc:231-256 | Each haptics sample is the mean of its 32nd part of the window brought to 8 bits, both toward zero; an empty part counts as zero |
| `PcmResample.HapticsInRange` | src/vds_protocol.cc:231-256 | A haptics sample stays within the window's range scaled to 8 bits; a window of 16 frames may add zeros |
| `PcmExtractor.SplittingIsInvisible` | src/vds_protocol.cc:871-935 | Two pushes give the chunks, flags and state of one push of both, for any encoder |
| `PcmExtractor.PushAllIsOnePush` | src/vds_protocol.cc:871-935 | and so does any number of pushes of any pieces |
| `PcmExtractor.ChannelsArrive` | src/vds_protocol.cc:877-909 | However the interleaved little-endian stream of four channels is cut into pushes, the encoder gets the block of exactly the speaker samples and the motors exactly the haptics samples, window by window; each signal flag is set if and only if a sample of its channels is not zero |
| `PcmExtractor.PcmAudioExtractor.PushUsbAudio` | src/vds_protocol.cc:911-934 | The fast path over whole frames and the byte path together are that push, with the channels as `ChannelsArrive` says |
| `PcmExtractor.PcmAudioExtractor.PushBytes` | src/vds_protocol.cc:921-932 | The byte path alone is a push |
| `PcmExtractor.PcmAudioExtractor.PushFrame` | src/vds_protocol.cc:912-919 | The fast path alone is a push |
| `PcmExtractor.PcmAudioExtractor.ConsumeFrame` | src/vds_protocol.cc:876-909 | A frame fills the window or completes a chunk of exactly the window's frames |
| `PcmExtractor.PcmAudioExtractor.Create` | src/vds_protocol.cc:418-425 | A window length is refused unless it is a positive multiple of 16 up to 512 |
| `VdsConfig.PortIndexFromPath` | src/vds_config.cc:236-268 | On either system the first prefix that fits and the digit loop with its early exit name the port of a device path |
| `VdsConfig.PathNamesExactly` | src/vds_config.cc:236-268 | The paths that name a port, and no others: a prefix of the system and a number below 4, leading zeros allowed |
| `VdsConfig.ChoiceIsPreferred` | src/vds_config.cc:304-319 | The choice is the first of the configuration's list, or the lowest, that is present and free |
| `VdsConfig.SelectPort` | src/vds_config.cc:304-319 | Chooses the first wanted port that is present and free, and none only if there is none |
| `VdsConfig.FirstChoiceUnique` | src/vds_config.cc:304-319 | There is only one such choice |
| `VdsdPorts.JoinKeepsAssigned` | src/platform/linux/vdsd.cc:1562-1663 | A channel accepted, a connection made or failed keep ports exclusive and allowed |
| `VdsdPorts.ReconcileKeepsAssigned` | src/platform/linux/vdsd.cc:1870-2005 | So does a reload of devices and configuration |
| `VdsdPorts.TurnedAwayOnlyWhenFull` | src/platform/linux/vdsd.cc:1344-1372 | A controller is turned away only if each present port it may use is another user's |
| `VdsdPorts.AvailablePortIndex` | src/platform/linux/vdsd.cc:1344-1372 | Finds a present port the configuration allows and nobody else uses |
| `VdsdPorts.PortsAreExclusive` | src/platform/linux/vdsd.cc:1562-1663 | Between events no two controllers with a channel or a connection share a device, and each has one its configuration allows |
| `VdsdPorts.JoinExactly` | src/platform/linux/vdsd.cc:1619-1663 | A first channel sets its own flag and the device and nothing else; the second makes the connection if the link comes up, and otherwise gives port and record up |
| `VdsdPorts.ConnectedExactly` | src/platform/linux/vdsd.cc:1562-1663 | Over any run of events a controller is connected if and only if its pair of channels was completed and the connection made, and no drop, vanished port or reload has taken it since |
| `VdsdPorts.ReconciledExactly` | src/platform/linux/vdsd.cc:1870-2005 | A reload leaves a controller that keeps its port everything but its configuration, and every other idle |
| `VdsdPorts.VdsDaemon.DeviceFor` | src/platform/linux/vdsd.cc:1587-1623 | A user keeps its device; another gets one that is present, allowed and free |
| `VdsdPorts.VdsDaemon.HandleBtAccept` | src/platform/linux/vdsd.cc:1562-1663 | The whole effect of a channel on the record of its address, field by field, and none on the others; between events no two users share a port, each holds an allowed and present one, and each record is idle, half accepted or connected |
| `VdsdPorts.VdsDaemon.DropBtBackend` | src/platform/linux/vdsd.cc:1402-1419 | A lost link frees the port |
| `VdsdPorts.VdsDaemon.ReconcileControllerConfigs` | src/platform/linux/vdsd.cc:1870-2005 | After a reload a controller has its port if and only if it used it, it is present, and its address, profile and ports still match |
| `VdsdState.LinkIsChronological` | src/platform/linux/vdsd.cc:479-569 | Over any run of accepts and refusals: full states go out in the order taken, also inside audio; audio chunks in order, none twice, 10 ms apart; the last sent is remembered |
| `VdsdState.ForwardSettles` | src/platform/linux/vdsd.cc:511-569 | After a forward the current state is the last sent with nothing pending, or is itself pending |
| `VdsdState.FlushCatchesUp` | src/platform/linux/vdsd.cc:479-509 | Once the link accepts, the controller has the current state |
| `VdsdState.ForwardExactly` | src/platform/linux/vdsd.cc:511-569 | What a forward sends: the refused report if the link takes it now, and the state if the controller neither has it nor has it pending; refused, it is what is pending |
| `VdsdState.FlushExactly` | src/platform/linux/vdsd.cc:1710-1868 | What a flush sends: nothing while a refused report stays refused; else, once the time has come, the oldest of the newest four chunks with the current state; a refused chunk is lost and the next may follow in 2 ms, otherwise in 10 ms |
| `VdsdState.NeverRepeats` | src/platform/linux/vdsd.cc:479-569 | Over any run no state report repeats the state of the report before it |
| `VdsdState.NextKeepsInv` | src/platform/linux/vdsd.cc:1710-1789 | Every event keeps the port's invariant |
| `VdsdState.VirtualPort.FlushPendingBtStateReport` | src/platform/linux/vdsd.cc:479-509 | Sends the pending report, or keeps it |
| `VdsdState.VirtualPort.ForwardBtStateIfChanged` | src/platform/linux/vdsd.cc:511-569 | Takes the forward step |
| `VdsdState.VirtualPort.FlushPendingAudioChunk` | src/platform/linux/vdsd.cc:1710-1789 | Drops stale chunks, sends or drops the next one, and sets the next send time |
| `VdsdState.VirtualPort.FlushPendingOutputs` | src/platform/linux/vdsd.cc:1832-1868 | Audio goes out only once no state is pending |
| `UsbipMic.RunKeepsFifo` | src/platform/win32/vds_usbip.cc:916-933 | Over any run the buffer is the end of the stream received, at most 23040 bytes; received = delivered + dropped + flushed + held |
| `UsbipMic.PullReadsStream` | src/platform/win32/vds_usbip.cc:969-1021 | Every pull returns exactly the count asked for: the stream from where it stands, then padding |
| `UsbipMic.SilenceUntilPrimed` | src/platform/win32/vds_usbip.cc:989-999 | After an underrun every pull is silence and takes nothing until 7680 bytes are held |
| `UsbipMic.PrimedUntilUnderrun` | src/platform/win32/vds_usbip.cc:1001-1021 | Over any run: once primed the buffer stays so if and only if every pull can be met and the interface is not switched, and so long every pull is met from the buffer without padding |
| `UsbipMic.ReceiveExactly` | src/platform/win32/vds_usbip.cc:919-928 | In every reachable state a receive keeps the newest 23040 bytes of what was held and what came, and drops no more than the rest |
| `UsbipMic.TakeExactly` | src/platform/win32/vds_usbip.cc:969-1021 | In every reachable state a pull takes from the front what it can once primed or 40 ms are held, and nothing before |
| `UsbipMic.PlaysOnceFilled` | src/platform/win32/vds_usbip.cc:919-999 | Once 40 ms have come in, in however many pieces, a pull gets the first of them |
| `UsbipMic.MicBuffer.ReceiveAudioIn` | src/platform/win32/vds_usbip.cc:916-933 | Keeps the newest bytes up to the cap and counts those dropped |
| `UsbipMic.MicBuffer.TakeMicBytes` | src/platform/win32/vds_usbip.cc:969-1021 | The three ways a pull goes, with the underrun and padding counters |
| `UsbipMic.MicBuffer.SwitchInterface` | src/platform/win32/vds_usbip.cc:1122-1132 | Switching the interface empties the buffer and its priming |
| `UsbipPacer.RepliesInOrder` | src/platform/win32/vds_usbip.cc:576-611 | Over any session each direction's replies leave in the order submitted, none lost or doubled, none before its due time |
| `UsbipPacer.EarliestFirst` | src/platform/win32/vds_usbip.cc:588-598 | The reply sent is the earliest due of both directions |
| `UsbipPacer.DueExactly` | src/platform/win32/vds_usbip.cc:1393-1399 | In every reachable state a submission is due exactly where the one before it in its direction ends, unless it is the first or comes more than 250 ms after that: then at once |
| `UsbipPacer.SentWhenDueExactly` | src/platform/win32/vds_usbip.cc:583-598 | Rounds enough for the queue send, in its order, every reply that is due and no other |
| `UsbipPacer.NeverFasterThanRealTime` | src/platform/win32/vds_usbip.cc:1390-1400 | Between two submissions of a direction the due times advance by at least all packets between them, 1 ms each |
| `UsbipPacer.SubmitKeepsInv` | src/platform/win32/vds_usbip.cc:1390-1400 | A submission, with or without a restart of its anchor, keeps the session's invariant |
| `UsbipPacer.Pacer.PaceReply` | src/platform/win32/vds_usbip.cc:1390-1400 | Sets the due time and puts the reply behind those due no later |
| `UsbipPacer.Pacer.SendDue` | src/platform/win32/vds_usbip.cc:583-598 | Takes the head exactly if it is due |
| `UsbipPacer.Pacer.EndSession` | src/platform/win32/vds_usbip.cc:866-875 | Drops the replies and the anchors |
| `BtOutputQueue.QueueBounded` | src/platform/win32/vds_bt.cc:800-815 | Over any run the queue holds at most 64 reports and at most 4 of audio |
| `BtOutputQueue.WrittenIsSubsequence` | src/platform/win32/vds_bt.cc:836-881 | Without error or stop, what was written is what was accepted, in order, leaving out only coalesced audio and what is still to come |
| `BtOutputQueue.ReportsConserved` | src/platform/win32/vds_bt.cc:762-881 | Accepted = written + coalesced + waiting + in flight, plus what an error or the stop took |
| `BtOutputQueue.RejectedOnlyWhenFull` | src/platform/win32/vds_bt.cc:802-815 | A report is refused if and only if the queue is full and, for audio, holds no audio; a refusal changes nothing |
| `BtOutputQueue.EnqueueExactly` | src/platform/win32/vds_bt.cc:762-824 | A report goes behind all others; only audio, when four audio reports wait or the queue is full, takes the place of one report, the oldest audio |
| `BtOutputQueue.HidBluetoothTransport.Padded` | src/platform/win32/vds_bt.cc:751-760 | A report goes out at the device's length: its own bytes, then zeros |
| `BtOutputQueue.OldestGivesWay` | src/platform/win32/vds_bt.cc:776-798 | Over any run reports are coalesced in the order accepted, each older than all audio still queued, and each for audio accepted after it |
| `BtOutputQueue.HidBluetoothTransport.CoalesceOldestAudio` | src/platform/win32/vds_bt.cc:776-787 | Finds and removes it |
| `BtOutputQueue.HidBluetoothTransport.TrimQueuedAudio` | src/platform/win32/vds_bt.cc:788-800 | Makes room among the audio reports |
| `BtOutputQueue.HidBluetoothTransport.EnqueueOutputReport` | src/platform/win32/vds_bt.cc:762-824 | The padded report is accepted, refused, or fails with the writer's error; too long is refused first |
| `BtOutputQueue.HidBluetoothTransport.PickWrite` | src/platform/win32/vds_bt.cc:839-850 | The writer takes the oldest report |
| `BtOutputQueue.HidBluetoothTransport.FinishWrite` | src/platform/win32/vds_bt.cc:852-880 | and counts it, or gives up |
| `BtOutputQueue.HidBluetoothTransport.StopOutputWriter` | src/platform/win32/vds_bt.cc:883-891 | Stopping drops what waits |
| `FilterWait.QueuedAreCurrent` | windrv/vds_filter/vds_filter.c:147-165 | Unless the notifier that made the current generation is still draining, every queued waiter carries that generation |
| `FilterWait.ChangeIsAnnounced` | windrv/vds_filter/vds_filter.c:467-485 | If the listing differs from a snapshot's, also because it was taken while a device's fields were being written, the generation is past it or a notifier is still to come |
| `FilterWait.NoLostNotification` | windrv/vds_filter/vds_filter.c:762-816 | With no change left to announce and that notifier done, whoever waits with a snapshot's generation has seen the list as it is |
| `FilterWait.CompletedOnce` | windrv/vds_filter/vds_filter.c:762-787 | No wait request is completed twice or while it waits |
| `FilterWait.BehindOnlyIfOvertaken` | windrv/vds_filter/vds_filter.c:147-165 | The notifier that made the current generation never tells a waiter of an earlier one than its own; once it is done, every other that still drains does so with every waiter |
| `FilterWait.SlowNotifierReportsThePast` | windrv/vds_filter/vds_filter.c:147-165 | With a single notifier at work, an overtaken one, it happens: a concrete run |
| `FilterWait.ListingLimits` | windrv/vds_filter/vds_filter.c:603-623 | A listing has at most eight entries and no address twice |
| `FilterWait.ListingIsFaithful` | windrv/vds_filter/vds_filter.c:604-623 | Every entry is of a listed device; with fewer than eight shown every listed device is shown, or its address is; report targets come first, and one that is none is shown only if all targets are |
| `FilterWait.WaiterHasSeen` | windrv/vds_filter/vds_filter.c:762-816 | So a waiter with the current generation whose snapshot had room has seen each listed device |
| `FilterWait.NoneVanishes` | windrv/vds_filter/vds_filter.c:762-787 | Every wait request is being inserted, waits, was completed or was cancelled |
| `FilterWait.GetDevices` | windrv/vds_filter/vds_filter.c:797-817 | The two walks give that listing, faithful to the list |
| `FilterWait.VdsFilter.WaitQueueInsertIrpEx` | windrv/vds_filter/vds_filter.c:85-97 | A waiter is queued only if its generation is still current |
| `FilterWait.VdsFilter.AdvanceGeneration` | windrv/vds_filter/vds_filter.c:155-162 | The first half of a notification |
| `FilterWait.VdsFilter.CompleteNextWaiter` | windrv/vds_filter/vds_filter.c:147-153 | One round of its second half |
| `FilterWait.VdsFilter.UpdateDeviceListMembership` | windrv/vds_filter/vds_filter.c:467-485 | The list follows the device; reports whether it changed |
| `Jsonl.EscapeUndone` | src/jsonl.cc:260-298 | Parsing the escaped form of any string gives the string and goes on behind it (section 7 of RFC 8259) |
| `Jsonl.StringRoundTrip` | src/jsonl.cc:318-323 | So every string survives printing and parsing |
| `Jsonl.ArrayRoundTrip` | src/jsonl.cc:327-337 | and every list of unsigned integers |
| `Jsonl.ObjectRoundTrip` | src/jsonl.cc:211-256 | and every object with plain keys |
| `Jsonl.KeySurvives` | src/jsonl.cc:302-308 | Keys are printed unescaped: a key survives if and only if it has no quote, backslash or control character |
| `Jsonl.QuoteCutsKey` | src/jsonl.cc:302-308 | A key that is a quote is read back as empty |
| `Jsonl.ParsesBackExactly` | src/jsonl.cc:186-207 | A printed value parses back if and only if it is a string or a list: the flags that `jsonl_bool_field` prints are refused |
| `JsonlGrammar.ParsesExactly` | src/jsonl.cc:81-256 | The parser accepts exactly the texts of the language, written down as spellings of strings, numbers, lists, fields and white space, each with what it means; everything else it refuses |
| `JsonlGrammar.EscapedTightly` | src/jsonl.cc:260-298 | An escaped character is as short as it can be |
| `Jsonl.EscapeJsonlString` | src/jsonl.cc:260-298 | The loop prints the escaped form |
| `Jsonl.JsonlUnsignedArray` | src/jsonl.cc:327-337 | The loop prints the array |
| `Jsonl.ParseJsonlString` | src/jsonl.cc:81-130 | The offset-moving parser is the grammar's, errors included |
| `Jsonl.ParseJsonlUnsigned` | src/jsonl.cc:132-154 | The digit loop gives up on a number over 32 bits, wherever it notices |
| `Jsonl.ParseJsonlUnsignedArray` | src/jsonl.cc:156-184 | The array parser is the grammar's, errors included |
| `Jsonl.ParseJsonlValue` | src/jsonl.cc:186-207 | A value is a string or an array |
| `Jsonl.ParseJsonlObject` | src/jsonl.cc:211-256 | The object parser is the grammar's, trailing data refused |
| `ConfigDb.DbRoundTrip` | src/vds_config.cc:50-63 | Parsing undoes serialising for every valid database |
| `ConfigDb.ParsedIsValid` | src/vds_config.cc:80-131 | Whatever the text, a database that parses is valid: normalised distinct addresses, sorted distinct ports below 4 |
| `ConfigDb.UpsertKeepsValid` | src/vds_config.cc:352-362 | An update succeeds if and only if address and ports are acceptable, keeps the database valid, and replaces exactly the record of its address |
| `ConfigDb.OthersKeepValid` | src/vds_config.cc:364-374 | A removal keeps the database valid and removes exactly the record of the address |
| `ConfigDb.NormalizeIsCanonical` | src/vds_config.cc:137-162 | Normalising gives the stored form and leaves it alone |
| `ConfigDb.NormalizeBluetoothAddress` | src/vds_config.cc:137-162 | The loop normalises exactly the well-formed addresses |
| `ConfigDb.PortsAccepted` | src/vds_config.cc:65-78 | Ports are accepted if and only if they are distinct and below 4, in whatever order |
| `ConfigDb.ValidatePorts` | src/vds_config.cc:65-78 | Sorts them and refuses the rest |
| `ConfigFormat.RecordsExactly` | src/vds_config.cc:80-102 | A line is read as a record if and only if it is an object of an address, a profile and ports, in any order and nothing else, that say it |
| `ConfigFormat.LinesExactly` | src/vds_config.cc:104-114 | The lines of a text are the text, cut at its line ends |
| `ConfigFormat.DbExactly` | src/vds_config.cc:104-131 | A text is read as a database if and only if its lines that are not empty are the records, one each and in order, no two of an address |
| `ConfigFormat.ReplacesInPlace` | src/vds_config.cc:352-362 | A record put in takes the place of the one with its address, or the last place; no other moves |
| `ConfigFormat.RemovesInPlace` | src/vds_config.cc:364-374 | One record at most is removed; no other moves |
| `ConfigDb.RecordRoundTrip` | src/vds_config.cc:80-102 | A valid record parses back from its line |
| `ConfigDb.SerializeConfigDb` | src/vds_config.cc:50-63 | The loop prints one line a record |
| `ConfigDb.ConfigDatabase.Load` | src/vds_config.cc:104-131 | Reads a text line by line; a text that is refused changes nothing |
| `ConfigDb.ConfigDatabase.UpsertControllerConfig` | src/vds_config.cc:352-362 | Updates in place or appends |
| `ConfigDb.ConfigDatabase.RemoveControllerConfig` | src/vds_config.cc:364-374 | Erases, and reports whether there was a record |

## Left out

- HcdUrbs.Dequeue: a dequeue of an URB whose `vds_urb_enqueue` is between linking it and queueing or pending it is not modelled.
- HcdUrbs.Ask: what the driver does after it used a freed context is not modelled; the step only records that it happened.
- HcdUrbs.Pick: the thread's wait for a first completion, from which every queueing wakes it, is not modelled; its sleep may end up to 50 us after the time it was set to, which the model leaves open.
- HcdUrbs.SetProfile: the step is the region under the device's lock; the profile is given by its HID IN interval.
- HcdUrbs.FillHidIn: records the report an URB received, not its truncation to the transfer buffer.
- HcdUrbs.Giveback: the status an ISO transfer may still change to while it is delivered is not part of the life cycle; the transfers themselves are in HcdIso.
- HcdUrbs.Next: port status bits, root hub requests, the queue of frames to user space and the device's configuration state are not modelled; whether a request frame is accepted is an input.
- HcdDriver.VdsHcdDev.QueueEach: the loop runs over the list as it was on entry, where the driver unlinks entries of the list it walks.
- HcdIso.IsoOutUrb: `chunks` are what is offered to the frame queue; that queue may still refuse them when it is full or the device stops.
- WinDelayedUrb.Advance: the three calls of a completion are steps of the machine without a method of their own; WDF's timer queue is modelled by the flag that the timer waits in it.
- WinRings.PortState.ReaderRecovers: the sequence number is unbounded in the model; the reader's statement assumes it has not reached 2^64.
- WinRings.Ring.WriteLocked: requires that the bytes fit, as its caller checks under the same lock.
- PcmExtractor.PcmAudioExtractor.ConsumeFrame: the Opus encoder is any function of its state and a block; an encoder error, which throws in the middle of a push, is not modelled.
- VdsdPorts.VdsDaemon.ReconcileControllerConfigs: a reload that fails part-way (a device that cannot be opened, a database that does not parse) is not modelled; the binary search over the sorted device list is membership.
- VdsdState.LinkIsChronological: the partial microphone reports, which bypass the record of what was sent last, are not modelled.
- UsbipMic.MicBuffer.ReceiveAudioIn: takes the payload after the capture gain, which is floating-point.
- FilterWait.UpdateMembership: the operations on one device stack are serialised, as the plug-and-play manager does; the unloading of the driver is not modelled, and addresses are compared exactly, not case-insensitively.
- FilterWait.Advance: the 32-bit generation does not wrap in the model.
- Jsonl.EscapeUndone: texts are sequences of characters of any code; the program's are bytes, which are among them.
- ConfigDb.ValidatePorts: the library sort is a function that sorts.
- The controller state of `DsOutputState` and the packet builders: a state is an opaque value here, because the daemon and the transports only compare it and pass it on; how an output report changes it is not modelled.
- The per-packet length accounting of USB/IP replies, control requests and descriptor tables.
- Operating-system calls, sockets, D-Bus, udev, logging, tracing and statistics.
- Opus, speaker gain, the test tone and the microphone gain, which are foreign or floating-point code.
- Allocation failures, and exceptions thrown by the standard library.
- Installers, scripts, the tray application and the command line.
