# Verified model of the OsmoTRX machinery

OsmoTRX is a GSM layer-1 radio modem. Its signal processing is floating-point
arithmetic, but what keeps the samples flowing is discrete: clocks that wrap
every hyperframe, a deadline scheduler, ring buffers, block resampling, queues
between threads, packets and bit fields. This project models that machinery in
Dafny and proves what it is for. Samples are pairs of reals, device calls are
parameters, and the heap the source manages by hand is a ghost map from live
vectors to their one owner.

| file | models |
|---|---|
| `GsmTime.dfy` | `GSM::Time`: wrapped arithmetic, and the order that is total only on windows of less than half a hyperframe |
| `TxSchedule.dfy` | the timing of `driveTxFIFO` over whole runs, with a radio clock that moves between any two reads |
| `TxChannel.dfy` | one transmit channel: priority queue, filler table, who owns which signal vector |
| `Transceiver.dfy` | the transmit loop over all channels |
| `SlotPattern.dfy` | how many samples a timeslot has |
| `RadioBuffer.dfy` | the segmented ring buffer with a history head, as an unbounded sample stream |
| `RadioInterface.dfy` | bursts, slots and device chunks in lockstep, in both directions |
| `TransmitPath.dfy` | transceiver and radio interface together: which samples of the device stream are which burst |
| `Convolve.dfy`, `SseKernels.dfy` | the base convolution loops, the SSE kernels as programs over four lanes, and the dispatch between them |
| `Resampler.dfy` | the polyphase filterbank against zero-stuffing, filtering and decimating |
| `SignalVector.dfy`, `ResampleStream.dfy` | block-by-block resampling with carried history against resampling the whole stream |
| `PointerFifo.dfy` | the linked list with a free list under the interthread queues |
| `InterthreadQueue.dfy` | the condition-variable protocol, for any number of readers and writers |
| `UsrpPackets.dfy` | USRP1 packets and the unwrapping of their timestamps |
| `Prbs.dfy`, `PrbsPeriod.dfy` | the shift-register bit generator, and the full period of the standard ones |
| `BitVector.dfy` | bit fields, packing, octet bit order |
| `Modular.dfy`, `Powers.dfy`, `Wrappers.dfy` | remainders, powers of two, absent values |

Results that say exactly when the code does what it is for:

- `OrderAgreesIff` and `AntisymmetryFailsIffHalf`: the comparisons of `Time` are
  the real order for times up to half a hyperframe of frames apart, except at
  exactly half.
- `AddFramesExactIff`: `Time += int` is right as long as the raw sum is not more
  than one hyperframe below zero; then the implicit conversion to unsigned in
  the `%` shows.
- `GetReadSegment`, by `HistoryExactIff`: with samples that can be told apart, the
  history before a segment is right exactly when the part of it in the ring is
  not overwritten yet and the part in the head room was not when the round began.
  It is enough that no more is waiting than the ring less the history length;
  `HistoryCanBeLost` runs a buffer in which more is, and `DriveTransmit` shows that
  over the resampler it never is.
- `PushSlot`, with `MatchIsSent` and `WaitsForItsSlot`: a burst that is queued less
  than half a hyperframe ahead is still there when its slot comes, and then it, or
  another burst for the same slot, goes out exactly when no other thread queues an
  earlier one after the stale bursts were dropped and before the current one is
  taken; otherwise filler goes out.
- `SafeIffNullOnlyLast`: the queues keep their wake-ups over every schedule
  exactly when no null pointer is written before something else. The comment in
  the source says that a read never returns NULL; it does not say that a NULL
  that was written is swallowed together with the wake-up of what follows it.
- `TimesExactIff`: the receiver rebuilds 64-bit packet times exactly when each
  packet is less than 2^32 samples after the one before.
- `ReversibleIff`: the bit generator cycles through its start state exactly when
  the last coefficient is there.
- `ChunkSizesPassIff` and `CheckedLengths`: which block lengths the resampler
  accepts. `Rotate` also says what happens to a block shorter than one filter
  path, which the source accepts and then leaves unfiltered.

## Model

| member | source | states |
|---|---|---|
| GsmTime.AtPeriodic | GSM/GSMCommon.h:84-95 | two unbounded slots show the same clock value exactly when they are whole hyperframes of 8 slots apart |
| GsmTime.PlusIsExact | GSM/GSMCommon.h:164-169 | adding two times adds slots, modulo the hyperframe |
| GsmTime.IncIsExact | GSM/GSMCommon.h:134-143 | `incTN` adds up to 8 slots, modulo the hyperframe |
| GsmTime.DecIsExact | GSM/GSMCommon.h:122-132 | `decTN` takes away up to 8 slots, modulo the hyperframe |
| GsmTime.IncDecInverse | GSM/GSMCommon.h:122-143 | `incTN` and `decTN` undo each other on every in-range time |
| GsmTime.AddFramesExactIff | GSM/GSMCommon.h:145-162 | adding frames is exact if and only if the raw sum is at least minus one hyperframe, with the unsigned remainder the code computes |
| GsmTime.DeltaIsExact | GSM/GSMCommon.cpp:66-73 | `FNDelta` is the true frame distance whenever that is in [-half, half) |
| GsmTime.DeltaAtHalf | GSM/GSMCommon.cpp:66-73 | half a hyperframe ahead is reported as half a hyperframe behind |
| GsmTime.OrderAgreesIff | GSM/GSMCommon.h:182-192 | up to half a hyperframe of frames apart, `<` and `>` tell the unbounded order if and only if the first time is not exactly half ahead |
| GsmTime.OrderInWindow | GSM/GSMCommon.h:182-209 | all five comparisons are the unbounded ones for times under half a hyperframe of frames apart |
| GsmTime.FarFutureLooksPast | GSM/GSMCommon.h:182-192 | a time half a hyperframe or more ahead counts as earlier |
| GsmTime.AntisymmetryFailsIffHalf | GSM/GSMCommon.h:182-209 | two times are each below the other exactly at half a hyperframe of frames; otherwise exactly one of `<`, `==`, `>` holds |
| GsmTime.OrderIsTranslationInvariant | GSM/GSMCommon.h:164-186 | adding the same time to both sides keeps the order |
| GsmTime.OrderIsTransitive | GSM/GSMCommon.h:182-186 | `<` is transitive on a window of half a hyperframe of frames |
| GsmTime.FrameClock.Inc | GSM/GSMCommon.h:134-143 | in place: the clock moves on by the given slots |
| GsmTime.FrameClock.Dec | GSM/GSMCommon.h:122-132 | in place: the clock moves back by the given slots |
| GsmTime.FrameClock.RollForward | GSM/GSMCommon.h:98-103 | stops at the first frame in cyclic order with the wanted remainder, in less than a hyperframe of steps |
| TxSchedule.PassIsIdeal | Transceiver52M/Transceiver.cpp:1001-1029 | a pass of the loop over wrapped clocks is the image of the pass over unbounded ones, for every device, clock reading and underrun |
| TxSchedule.EverySlotOnce | Transceiver52M/Transceiver.cpp:1001-1029 | over every run the slots pushed are exactly those from the first deadline on, once each and in order, across hyperframes |
| TxSchedule.LatencyBounds | Transceiver52M/Transceiver.cpp:1004-1025 | over every run with a clock that does not run backwards, unbounded latency stays above its floor and gains at most 8 slots per 81 slots of clock |
| TxSchedule.LatencyStaysBounded | Transceiver52M/Transceiver.cpp:1004-1025 | the same from the start on; and the clock value really held is the unbounded latency as long as that is under a hyperframe |
| TxSchedule.LatencyChangesIff | Transceiver52M/Transceiver.cpp:1004-1025 | in unbounded time, within half a hyperframe: latency goes up by a frame exactly on an underrun more than ten frames after its last change, down by a slot exactly without one, above the minimum and more than 216 frames after, and stays otherwise |
| TxSchedule.BumpNeeds81Slots | Transceiver52M/Transceiver.cpp:1005-1013 | latency is raised only when at least 81 slots have passed since it last changed |
| TxSchedule.RelaxOnlyAbove | Transceiver52M/Transceiver.cpp:1014-1024 | latency is lowered only while it is above the device minimum |
| TxSchedule.LatencyFallsSlowly | Transceiver52M/Transceiver.cpp:1014-1024 | over every run, latency loses at most one slot per 1729 slots of clock |
| TxSchedule.DueIffBehind | Transceiver52M/Transceiver.cpp:1001 | in reach, the loop guard holds if and only if the deadline is behind clock plus latency |
| TxSchedule.StallsBeyondHalf | Transceiver52M/Transceiver.cpp:1001 | half a hyperframe or more behind, the loop does not run at all |
| TxSchedule.CatchUpPass | Transceiver52M/Transceiver.cpp:1001-1029 | with the clock standing, each pass brings the loop strictly closer to its end and keeps it in reach |
| TxSchedule.StandingEnds | Transceiver52M/Transceiver.cpp:1001-1029 | wherever the deadline is, with the clock standing a pass narrows the wrapped gap to clock plus latency or changes latency for the last time, so that the loop ends |
| TxChannels.FillerRecurs | Transceiver52M/Transceiver.cpp:428-455 | whatever the combination, filler rows recur with the period through the wrap of the hyperframe |
| TxChannels.WindowOrder | Transceiver52M/radioVector.cpp:54-57 | inside a window under half a hyperframe, comparing times is comparing signed distances from the deadline |
| TxChannels.WindowIs | Transceiver52M/radioVector.cpp:54-57 | which times lie in the window of a deadline, in unbounded time |
| TxChannels.WindowAdvances | Transceiver52M/Transceiver.cpp:1027-1028 | what is not stale stays in the window when the deadline moves on by a slot |
| TxChannels.TopExists | CommonLibs/Interthread.h:559-567 | the wrapped order has a least element on every non-empty queue inside a window |
| TxChannels.TopIsLeast | CommonLibs/Interthread.h:559-567 | the top of the priority queue is the earliest burst |
| TxChannels.LastWriteMeaning | Transceiver52M/Transceiver.cpp:367-378 | said without recursion: a cell holds the last vector written to it, else its initial one |
| TxChannels.OwnsInstall | Transceiver52M/Transceiver.cpp:372-377 | replacing a cell's vector frees exactly the old one and keeps one owner per vector |
| TxChannels.OwnsDequeue | Transceiver52M/radioVector.cpp:127-135 | popping a burst passes its vector to the caller and to nobody else |
| TxChannels.ConservesDequeue | Transceiver52M/radioVector.cpp:119-155 | a burst taken out is counted once, as sent or as dropped |
| TxChannels.TxChannel.constructor | Transceiver52M/Transceiver.cpp:45-110 | every cell of the 102 by 8 table starts with a vector of its own, all periods 26, slots inactive or, with random normal and EDGE fillers, typed |
| TxChannels.TxChannel.SetSlot | Transceiver52M/Transceiver.cpp:834-846 | every combination gets its repetition period, 26, 51, 102 or 52 frames, an unlisted one keeps the old; other slots keep theirs; a bad slot changes nothing |
| TxChannels.TxChannel.Write | CommonLibs/Interthread.h:634-644 | the burst is queued and its vector now belongs to the queue |
| TxChannels.TxChannel.Clear | CommonLibs/Interthread.h:586-597 | empties the queue and frees every queued vector once |
| TxChannels.TxChannel.Pop | Transceiver52M/radioVector.cpp:127-129 | exactly one burst leaves the queue, its vector passes to the caller, and it is recorded as sent or dropped |
| TxChannels.TxChannel.GetStaleBurst | Transceiver52M/radioVector.cpp:119-136 | takes the earliest burst exactly when some burst is before the target |
| TxChannels.TxChannel.GetCurrentBurst | Transceiver52M/radioVector.cpp:138-155 | takes a burst exactly when one is for the target and none is before it |
| TxChannels.TxChannel.Arrive | Transceiver52M/Transceiver.cpp:364 | what another thread queues meanwhile is queued, with every invariant kept |
| TxChannels.TxChannel.UpdateFillerTable | Transceiver52M/Transceiver.cpp:367-378 | the cell of the timeslot at frame modulo period now holds the burst's vector, the old one is freed |
| TxChannels.TxChannel.DropStale | Transceiver52M/Transceiver.cpp:392-398 | what is dropped is exactly what was before the slot; nothing earlier than it remains |
| TxChannels.TxChannel.PushSlot | Transceiver52M/Transceiver.cpp:389-418 | with any bursts queued by another thread after the stale loop: of what was queued, exactly the bursts before the slot are dropped; a burst for the slot is sent, and no filler, if and only if there is one and nothing earlier came in between; otherwise the slot's filler cell goes out; the slot is silent exactly when it has no combination; with retransmission every burst that left went to the table; the vector sent is live, as long as the slot, and only it may be released |
| TxChannels.TxChannel.ChooseVector | Transceiver52M/Transceiver.cpp:400-417 | the filler of the slot, or the burst for it when it is on top of the queue |
| TxChannels.ServeSlot | Transceiver52M/Transceiver.cpp:392-406 | the two queue operations together, with arrivals in between: who left, who stayed, and when the slot's burst is used |
| TxChannels.TxChannel.FillerOf | Transceiver52M/Transceiver.cpp:400-403 | the vector in the table at frame modulo period and timeslot is live and as long as the slot |
| TxChannels.TxChannel.Spend | Transceiver52M/Transceiver.cpp:406-417 | a sent burst's vector ends up in the table or with the caller, not both |
| TxChannels.TxChannel.Release | Transceiver52M/Transceiver.cpp:422-425 | the lent vector, and no other, is freed |
| Transceivers.Transceiver.constructor | Transceiver52M/Transceiver.cpp:186-225 | all clocks at the start time, nothing queued or pushed, radio off |
| Transceivers.Transceiver.SetSlot | Transceiver52M/Transceiver.cpp:834-846 | the invariants of all channels survive any SETSLOT, and the slot has its combination and period |
| Transceivers.Transceiver.AddRadioVector | Transceiver52M/Transceiver.cpp:338-365 | a bad channel or slot changes nothing, otherwise exactly one channel's queue grows by the burst |
| Transceivers.Transceiver.PushRadioVector | Transceiver52M/Transceiver.cpp:380-426 | one call to the radio: for the slot, with every channel's own vector and zero flag, whatever other threads queue meanwhile; and every channel served and left with nothing lent |
| Transceivers.Transceiver.SilentIff | Transceiver52M/Transceiver.cpp:404 | a channel's zero flag is set exactly in slots without a combination; the slot went by the channel's periods and retransmission |
| Transceivers.Transceiver.AdjustLatency | Transceiver52M/Transceiver.cpp:1004-1025 | in place, with a clock that moves between its two reads: the latency control of the scheduler |
| Transceivers.Transceiver.PushDeadline | Transceiver52M/Transceiver.cpp:1027-1028 | every channel went from its state before through its slot step to its state now, and all are ready for the next slot |
| Transceivers.Transceiver.TxPass | Transceiver52M/Transceiver.cpp:1001-1029 | one pass, wherever the radio clock is at each read and whatever other threads queue: latency control, exactly the deadline slot served on every channel and recorded, deadline one slot on; kept: every slot since the start was pushed once, in order and at slot length, and nothing else happened to any channel but bursts being queued |
| Transceivers.RadioGetsSlotLengths | Transceiver52M/radioInterface.cpp:224-225 | over every run, the nth call to the radio is for the nth slot, with the vectors and zero flags the channels chose, all as long as that slot, bursts and filler alike |
| Transceivers.Transceiver.DriveTxFifo | Transceiver52M/Transceiver.cpp:982-1033 | with a clock that moves in any way between any two reads and stands once the given reads are used up, and bursts arriving in any slot: the loop ends wherever the deadline is, is the scheduler run of its trace, and serves the channels from the state the call found them in, slot after slot, to the state it leaves, with nothing else happening to them; the guard is then false, which within half a hyperframe means the deadline is no earlier than clock plus latency, and at most one slot past it if the clock stood |
| Transceivers.Transceiver.SinceStart | Transceiver52M/Transceiver.cpp:389-418 | at any time each channel has sent exactly the bursts its slots used, each in its own slot, dropped exactly those that were stale, each after its slot, and written exactly those to the filler table |
| Transceivers.Transceiver.SinceCall | Transceiver52M/Transceiver.cpp:389-418 | over a call, the bursts that were queued or came are, as multisets, those sent, dropped and still queued; each was sent in its own slot, dropped after it, or is queued |
| Transceivers.Transceiver.CameInCall | Transceiver52M/Transceiver.cpp:982-1033 | each slot of a call was served with the bursts that came in it |
| Transceivers.RunRecord | Transceiver52M/Transceiver.cpp:389-418 | over any number of slots, sent, dropped and filler writes are what the slots contributed, in order |
| Transceivers.EachInItsSlot | Transceiver52M/radioVector.cpp:119-155 | over any number of slots, what is sent is for its slot and what is dropped is before it |
| Transceivers.CallConserves | Transceiver52M/Transceiver.cpp:389-418 | over any number of slots no burst is lost or doubled, and the vectors seen are those seen before and those that came |
| Transceivers.WhereItWent | Transceiver52M/Transceiver.cpp:389-418 | over any number of slots, each burst that was queued or came went out in its own slot, was dropped after it, or is queued still |
| Transceivers.MatchIsSent | Transceiver52M/Transceiver.cpp:400-417 | a burst queued for the slot, or another for the same slot, goes out and no filler does, if and only if nothing earlier came late |
| Transceivers.WaitsForItsSlot | Transceiver52M/Transceiver.cpp:389-418 | over any run, a burst queued less than half a hyperframe of frames ahead is queued when its slot comes, and it or another for that slot goes out if and only if nothing earlier came late |
| Transceivers.FillerIsLastBurst | Transceiver52M/Transceiver.cpp:367-417 | over any run, filler that goes out is the last burst sent or dropped, while the channel retransmitted, for the same timeslot in a frame congruent modulo the period |
| Transceivers.FillerWasThere | Transceiver52M/Transceiver.cpp:367-417 | if there was none since the start, it is what was in the table then |
| Transceivers.Transceiver.Start | Transceiver52M/Transceiver.cpp:246-291 | restarts the deadline at the radio clock, within reach of it for any latency under half a hyperframe, with a new record |
| Transceivers.Transceiver.Stop | Transceiver52M/Transceiver.cpp:302-336 | empties every queue without losing or double-freeing a vector |
| RadioBuffers.OverlayHolds | Transceiver52M/radioBuffer.cpp:114-125 | writing round the end of the ring extends the stream it holds |
| RadioBuffers.UnderlayHolds | Transceiver52M/radioBuffer.cpp:215-225 | reading round the end of the ring gives the next part of the stream |
| RadioBuffers.SafeHistory | Transceiver52M/radioBuffer.cpp:84-93 | history no older than the ring allows is the stream itself |
| RadioBuffers.HistoryExactIff | Transceiver52M/radioBuffer.cpp:84-93 | with distinguishable samples the history is the stream's if and only if its part in the ring is not overwritten and its part in the head room was not when copied |
| RadioBuffers.HistoryCanBeLost | Transceiver52M/radioBuffer.cpp:66-128 | a buffer written and read until a segment comes with the wrong sample before it |
| RadioBuffers.RadioBuffer.constructor | Transceiver52M/radioBuffer.cpp:27-46 | an empty stream; no head room in the input direction |
| RadioBuffers.RadioBuffer.Reset | Transceiver52M/radioBuffer.cpp:53-58 | back to an empty stream |
| RadioBuffers.RadioBuffer.AvailSegments | Transceiver52M/radioBuffer.h:15 | less than one exactly when a segment is not available |
| RadioBuffers.RadioBuffer.FreeSegments | Transceiver52M/radioBuffer.h:22-25 | none exactly when a segment does not fit |
| RadioBuffers.RadioBuffer.GetReadSegment | Transceiver52M/radioBuffer.cpp:66-94 | refused exactly in the wrong direction or below a segment; else the next segment of the stream; what precedes it in memory is the stream's history if no more waits than ring less head, and exactly when it was kept |
| RadioBuffers.RadioBuffer.Write | Transceiver52M/radioBuffer.cpp:101-128 | refused exactly in the wrong direction or for lack of room, else appends to the stream |
| RadioBuffers.RadioBuffer.Zero | Transceiver52M/radioBuffer.cpp:130-157 | the same with silence |
| RadioBuffers.RadioBuffer.GetWriteSegment | Transceiver52M/radioBuffer.cpp:162-189 | refused exactly in the wrong direction or without room for a segment; the inner checks never fire; the segment is the next part of the stream |
| RadioBuffers.RadioBuffer.StoreSegment | Transceiver52M/radioInterface.cpp:334-338 | filling the segment just handed out makes its contents the end of the stream |
| RadioBuffers.RadioBuffer.ZeroWriteSegment | Transceiver52M/radioBuffer.cpp:191-200 | appends a segment of silence |
| RadioBuffers.RadioBuffer.Read | Transceiver52M/radioBuffer.cpp:202-228 | refused exactly in the wrong direction or for lack of samples, else the next part of the stream in order |
| RadioInterfaces.FourSlots | Transceiver52M/radioInterface.cpp:258-261 | any four consecutive bursts make up exactly one device chunk |
| RadioInterfaces.SpanIs | Transceiver52M/radioInterface.cpp:244-281 | in closed form: n slots have 156 symbols each and one more for every slot number that is a multiple of four, or 625 samples each |
| RadioInterfaces.SpanOfChunks | Transceiver52M/radioInterface.cpp:258-280 | over any number of slots, every four add one chunk, whatever slot they start at |
| RadioInterfaces.WithinThreeQuarters | Transceiver52M/radioInterface.cpp:258-280 | at 1 sample per symbol the bursts stay within 0.75 symbol of 156.25 symbols per slot, over any run |
| RadioInterfaces.NeverEarly | Transceiver52M/radioInterface.cpp:276-281 | seen from a slot with 157 symbols, no slot begins early, or more than 0.75 symbol late |
| RadioInterfaces.Pending | Transceiver52M/radioInterface.cpp:218-228 | what is left after whole chunks is less than a chunk, and exactly the fourth burst completes one |
| RadioInterfaces.RxRoom | Transceiver52M/radioInterface.cpp:313-320 | between chunks at most a chunk waits, so a whole chunk always fits |
| RadioInterfaces.CutMeans | Transceiver52M/radioInterface.cpp:262-281 | a burst is cut exactly while it is not the last of its chunk |
| RadioInterfaces.OfferKeepsPrefix | Transceiver52M/radioInterface.cpp:267-270 | a receive FIFO of 32 keeps what came first and displaces nothing |
| RadioInterfaces.RadioInterface.constructor | Transceiver52M/radioInterface.cpp:33-74 | a send and a receive buffer per channel, nothing shared, both directions in step |
| RadioInterfaces.RadioInterface.Start | Transceiver52M/radioInterface.cpp:172-200 | empties all buffers and takes the device's timestamps, once |
| RadioInterfaces.RadioInterface.RadioifyVector | Transceiver52M/radioInterface.cpp:123-132 | the unchecked buffer call succeeds and appends the burst, or as many zero samples |
| RadioInterfaces.RadioInterface.PushBuffer | Transceiver52M/radioInterface.cpp:346-368 | hands over a chunk per channel exactly when one is there, whatever the device takes of it; no pointer is ever NULL |
| RadioInterfaces.RadioInterface.FlushChunks | Transceiver52M/radioInterface.cpp:227 | the loop ends with less than a chunk left, one call to the device per chunk |
| RadioInterfaces.RadioInterface.DriveTransmitRadio | Transceiver52M/radioInterface.cpp:218-228 | every stream grows by its whole burst, all channels stay equally full, what was handed over is a prefix of the stream, exactly one chunk goes out with every fourth slot, and the timestamp moves by what the device took |
| RadioInterfaces.RadioInterface.SentToDevice | Transceiver52M/radioInterface.cpp:218-228 | each channel's device stream is its burst stream up to the last whole chunk of 625 symbols, one for every four slots |
| RadioInterfaces.RadioInterface.PullBuffer | Transceiver52M/radioInterface.cpp:313-343 | fails exactly when the device does; else every channel's stream grows by its chunk |
| RadioInterfaces.RadioInterface.UnRadioifyVector | Transceiver52M/radioInterface.cpp:134-144 | never short of samples; the burst is the stream's part for its slot |
| RadioInterfaces.RadioInterface.CutBursts | Transceiver52M/radioInterface.cpp:240-281 | cuts bursts with consecutive times and the right stretches of the stream until exactly the next burst is left |
| RadioInterfaces.RadioInterface.DriveReceiveRadio | Transceiver52M/radioInterface.cpp:230-284 | from any slot, the first chunk gives three bursts and every later one four; times are consecutive across calls, at the clock less the receive offset |
| RadioInterfaces.RadioInterface.Received | Transceiver52M/radioInterface.cpp:230-284 | every burst received so far: its time is its slot, its samples those of its slot in the stream, 157 symbols in slots that are multiples of four and 156 in the others |
| TransmitPath.Transmit | Transceiver52M/Transceiver.cpp:420 | everything a transceiver hands over in any number of slots meets what the radio interface needs: no buffer call is refused, each channel's stream grows by what its slots chose, one chunk per four slots goes to the device |
| TransmitPath.PlaceOnAir | Transceiver52M/radioInterface.cpp:218-228 | for every channel and slot: at the place the slots before it leave are zero samples if the slot has no combination, and otherwise the vector of the burst used, or of the filler cell at frame modulo period |
| TransmitPath.BurstOnAir | Transceiver52M/radioInterface.cpp:218-228 | a burst used in its slot is in the device stream at the samples of its slot, on a channel active then |
| Convolve.ConvolvedIsUnique | Transceiver52M/arch/common/convolve_base.c:58-87 | the specification of a convolution leaves one result only |
| Convolve.ConvolvedMeans | Transceiver52M/arch/common/convolve_base.c:58-87 | float by float: each output is the sum of taps times samples, for real and for complex taps, and the memory around the outputs is kept |
| Convolve.FourRealTaps | Transceiver52M/arch/x86/convolve_sse_3.c:381-391 | four taps at a time over even and odd lanes are four taps of the sum |
| Convolve.FourComplexTaps | Transceiver52M/arch/x86/convolve_sse_3.c:431-448 | the same for complex taps |
| Convolve.HorizontalSums | Transceiver52M/arch/x86/convolve_sse_3.c:394-402 | two horizontal adds leave the two sums of all lanes |
| Convolve.Mac | Transceiver52M/arch/common/convolve_base.c:28-40 | adds one product to one output in place |
| Convolve.MacVec | Transceiver52M/arch/common/convolve_base.c:42-56 | adds the whole sum of taps to one output in place |
| Convolve.BaseConvolve | Transceiver52M/arch/common/convolve_base.c:58-87 | each output is the sum over the taps, nothing else changes |
| SseKernels.Real4 | Transceiver52M/arch/x86/convolve_sse_3.c:34-72 | equals the sum over 4 taps for every output, nothing else changes |
| SseKernels.Real8 | Transceiver52M/arch/x86/convolve_sse_3.c:75-123 | the same for 8 taps |
| SseKernels.Real12 | Transceiver52M/arch/x86/convolve_sse_3.c:126-189 | the same for 12 taps |
| SseKernels.Real16 | Transceiver52M/arch/x86/convolve_sse_3.c:192-268 | the same for 16 taps |
| SseKernels.Real20 | Transceiver52M/arch/x86/convolve_sse_3.c:271-358 | the same for 20 taps |
| SseKernels.Real4n | Transceiver52M/arch/x86/convolve_sse_3.c:361-405 | the same for every multiple of 4 taps |
| SseKernels.Complex4n | Transceiver52M/arch/x86/convolve_sse_3.c:408-463 | complex sums for every multiple of 4 taps |
| SseKernels.Complex8n | Transceiver52M/arch/x86/convolve_sse_3.c:466-541 | complex sums for every multiple of 8 taps |
| SseKernels.ConvolveVector | Transceiver52M/arch/x86/convolve.c:98-154 | accepts exactly 1 to as many taps as samples, 1 to as many outputs as there is room for, up to the last sample, and then every output is the sum over the taps, whichever kernel is chosen; otherwise nothing is written |
| SseKernels.SseMakesNoDifference | Transceiver52M/arch/x86/convolve.c:70-154 | with and without SSE the output memory is the same |
| Resamplers.FilteredIsPath | Transceiver52M/Resampler.cpp:89-93 | filtering the zero-stuffed signal with the whole prototype is one path of it against the samples |
| Resamplers.ResampledMeans | Transceiver52M/Resampler.cpp:139-147 | without zeros or recursion: output i is the sum of the coefficients of path q*i modulo p times the samples from q*i over p backwards |
| Resamplers.TapsArePath | Transceiver52M/Resampler.cpp:95-97 | convolving with a reversed partition is summing the path backwards from the sample |
| Resamplers.Commutator | Transceiver52M/Resampler.cpp:159-165 | input index times p plus path is q times the output index, with the path in range |
| Resamplers.CheckedLengths | Transceiver52M/Resampler.cpp:100-129 | lengths pass exactly when they are equally many whole blocks of q in and p out, within the maximum |
| Resamplers.IndexInBlock | Transceiver52M/Resampler.cpp:139-147 | every output of an accepted block starts from a sample of the block |
| Resamplers.Resampler.Populate | Transceiver52M/Resampler.cpp:89-93 | coefficient i*p + n of the prototype is tap i of path n |
| Resamplers.Resampler.ReverseRow | Transceiver52M/Resampler.cpp:95-97 | the taps of one path are reversed in place, the others kept |
| Resamplers.Resampler.InitFilters | Transceiver52M/Resampler.cpp:89-97 | every partition is its path of the prototype, last tap first |
| Resamplers.Resampler.Init | Transceiver52M/Resampler.cpp:152-168 | fails exactly on a zero parameter, else filterbank and tables are right |
| Resamplers.Resampler.OutputIsResampled | Transceiver52M/Resampler.cpp:139-147 | one partition at one index gives the zero-stuff, filter, decimate output |
| Resamplers.Resampler.Rotate | Transceiver52M/Resampler.cpp:131-150 | every output is that of the slow form, for all p, q, filter lengths and prototypes; wrong lengths are refused; a block shorter than a path leaves the output as it was |
| SignalVectors.SignalVector.constructor | Transceiver52M/signalVector.cpp:9-14 | head room in front of the data, all zero |
| SignalVectors.SignalVector.UpdateHistory | Transceiver52M/signalVector.cpp:65-77 | the end of the data is in the head room, the data is kept, even when the regions overlap |
| ResampleStream.IndexShift | Transceiver52M/Resampler.cpp:159-165 | whole blocks on, the commutator is where it was |
| ResampleStream.BlockOutput | Transceiver52M/radioInterfaceResamp.cpp:188-198 | an output of a block with its history is the output of the whole stream |
| ResampleStream.BlockContinues | Transceiver52M/radioInterfaceResamp.cpp:188-198 | one more block, resampled by itself, continues the resampled stream |
| ResampleStream.Downsampler.constructor | Transceiver52M/radioInterfaceResamp.cpp:146-153 | the stream starts with a filter length of zeros, the receive buffer empty |
| ResampleStream.Downsampler.PullBlock | Transceiver52M/radioInterfaceResamp.cpp:187-200 | block by block, for any number of blocks, the receive buffer has got the whole received stream, after zeros, resampled at once |
| ResampleStream.Downsampler.PullBuffer | Transceiver52M/radioInterfaceResamp.cpp:163-200 | fails exactly when the receive buffer has no room for a segment or the device does not deliver, and then changes nothing; otherwise the timestamp moves on by a device block |
| ResampleStream.Downsampler.DriveReceive | Transceiver52M/radioInterface.cpp:230-284 | over the resampler the receive buffer never refuses: fails exactly when the device does; the bursts have the times of consecutive slots at the receive offset, are consecutive stretches of the resampled stream as long as their slots, and are offered to the FIFO in order; one at most is left |
| ResampleStream.Downsampler.ReceivedStream | Transceiver52M/radioInterfaceResamp.cpp:187-200 | at any time the receive buffer has got exactly the outputs of the whole received stream |
| ResampleStream.CutMeans | Transceiver52M/radioInterface.cpp:256-281 | each burst cut has the time and the samples of its slot |
| ResampleStream.SegmentOutput | Transceiver52M/radioInterfaceResamp.cpp:203-217 | an output of a buffer segment with its history, the first segment included, is the output of the whole stream |
| ResampleStream.Upsampler.constructor | Transceiver52M/radioInterfaceResamp.cpp:130-145 | nothing sent, the buffers and lengths as given |
| ResampleStream.Upsampler.PushBlock | Transceiver52M/radioInterfaceResamp.cpp:203-234 | sends exactly when a segment is there and moves the timestamp on by a device block; from the first block on, what the device has got is the whole sample stream, after what was in memory before the first segment, resampled at once |
| ResampleStream.Upsampler.DriveTransmit | Transceiver52M/radioInterface.cpp:218-228 | over the resampler the send buffer never refuses a burst, the history of every segment is there, the loop ends with less than a segment left, the timestamp keeps step with the blocks sent, and the device output stays the resampled stream |
| ResampleStream.Upsampler.SentStream | Transceiver52M/radioInterfaceResamp.cpp:203-234 | at any time the device has got exactly the outputs of the whole sample stream, after what was in memory first |
| ResampleStream.PrimerForgotten | Transceiver52M/radioInterfaceResamp.cpp:203-217 | what was in memory at first is in no output whose filter path starts with the stream |
| ResampleStream.FirstBlockOnly | Transceiver52M/radioInterfaceResamp.cpp:203-217 | and so in none after the first block |
| ResampleStream.SentGrows | Transceiver52M/radioInterfaceResamp.cpp:203-217 | samples written later do not change what has been sent |
| ResampleStream.RingsSuffice | Transceiver52M/radioInterfaceResamp.cpp:123-146 | the buffer sizes, made for the receive side, are enough in both directions and for any rates of the two sides: a burst behind a segment with its history, a segment behind a burst |
| ResampleStream.ChunkSizesPassIff | Transceiver52M/radioInterfaceResamp.cpp:123-151 | the chunk sizes derived from the rates pass both resamplers exactly when both fit the largest output |
| PointerFifos.PointerFifo.constructor | CommonLibs/LinkedLists.h:70-73 | an empty sequence and no nodes |
| PointerFifos.PointerFifo.Allocate | CommonLibs/LinkedLists.cpp:90-96 | hands out a free node, or a new one only when no node is free |
| PointerFifos.PointerFifo.Put | CommonLibs/LinkedLists.cpp:63-72 | appends to the sequence; nodes are as many as the most items ever held |
| PointerFifos.PointerFifo.PushFront | CommonLibs/LinkedLists.cpp:51-61 | prepends to the sequence, likewise |
| PointerFifos.PointerFifo.Release | CommonLibs/LinkedLists.cpp:98-102 | the node moves to the free list, and is then on that list only |
| PointerFifos.PointerFifo.Get | CommonLibs/LinkedLists.cpp:75-87 | takes the first item, null when there is none; no node is lost |
| PointerFifos.PointerFifo.Front | CommonLibs/LinkedLists.h:88-89 | the first item, left in place |
| PointerFifos.OwnedApart | CommonLibs/LinkedLists.cpp:51-102 | the two lists are free of repetition, disjoint, and hold every node ever allocated |
| InterthreadQueues.StepKeeps | CommonLibs/Interthread.h:97-156 | every step but an untimed read of a null pointer with more behind it keeps: while a reader waits, no more items than woken readers and writers about to signal |
| InterthreadQueues.ReadTakesHead | CommonLibs/Interthread.h:97-156 | every read takes the head of the queue if there is one, and delivers it unless it is a null pointer |
| InterthreadQueues.ReadWaitsIff | CommonLibs/Interthread.h:97-156 | an untimed read waits exactly after an empty queue or a null pointer, a timed one after an empty queue until its time is over, a non-blocking one never |
| InterthreadQueues.WriteStores | CommonLibs/Interthread.h:133-156 | a write puts the item at its end, and its signal wakes exactly one waiting reader if there is one |
| InterthreadQueues.NoWakeUpIsLost | CommonLibs/Interthread.h:97-156 | so over every run of either queue without null pointers, with any readers, timeouts, spurious wake-ups and writes at both ends |
| InterthreadQueues.CallsSettle | CommonLibs/Interthread.h:97-106 | calls in progress end in bounded steps, and then nobody waits for an item that is there |
| InterthreadQueues.DeliveredOnce | CommonLibs/Interthread.h:97-156 | written at the back, items come out in order, each once; written at either end, each exactly once |
| InterthreadQueues.NullLosesWakeUp | CommonLibs/Interthread.h:97-106 | for any item sequence with a null pointer before something else, a schedule that leaves a reader waiting while items are queued |
| InterthreadQueues.SafeIffNullOnlyLast | CommonLibs/Interthread.h:97-275 | for both queues: every schedule keeps its wake-ups if and only if no null pointer is written before something else |
| UsrpPackets.HeaderFields | Transceiver52M/device/usrp1/USRPDevice.cpp:546 | the fields of the header word do not overlap: the reader's shifts and masks give each back |
| UsrpPackets.HeaderBits | Transceiver52M/device/usrp1/USRPDevice.cpp:546 | which bits of the header word are which field, and that the rest are zero |
| UsrpPackets.WriteSamples | Transceiver52M/device/usrp1/USRPDevice.cpp:526-562 | any burst becomes ceil(bytes/504) packets whose payloads join to it, start flag only on the first, end flag only on the last, times 126 samples apart; at most 20 packets if and only if at most 2520 samples |
| UsrpPackets.PacketIs | Transceiver52M/device/usrp1/USRPDevice.cpp:534-562 | bit by bit: 126 samples or the rest, their size, the marks of first and last packet, the channel, the 32 low bits of a time 126 samples on |
| UsrpPackets.TimeExactIff | Transceiver52M/device/usrp1/USRPDevice.cpp:405-411 | a packet's time is right if and only if less than 2^32 samples have passed, even across the 64-bit wrap |
| UsrpPackets.FirstTimesExactIff | Transceiver52M/device/usrp1/USRPDevice.cpp:405-411 | before reading has started it is right if and only if the upper half has not changed |
| UsrpPackets.TimesExactIff | Transceiver52M/device/usrp1/USRPDevice.cpp:399-411 | a whole sequence of times is rebuilt if and only if each is less than 2^32 after the one before |
| UsrpPackets.Receiver.PacketTime | Transceiver52M/device/usrp1/USRPDevice.cpp:401-411 | the two fields follow the unwrapping of one packet |
| UsrpPackets.Receiver.PacketTimes | Transceiver52M/device/usrp1/USRPDevice.cpp:399-411 | the loop over packets is the unwrapping of the sequence |
| UsrpPackets.BurstTimesSurvive | Transceiver52M/device/usrp1/USRPDevice.cpp:399-411 | the packets of a burst, read by a receiver less than 2^32 samples behind, have their full times again |
| PrbsGenerators.StepInjective | CommonLibs/PRBS.h:44-60 | the state before a bit can be told from the state after it |
| PrbsGenerators.ReversibleIff | CommonLibs/PRBS.h:44-60 | no two states have the same successor if and only if the last coefficient is set |
| PrbsGenerators.OrbitStays | CommonLibs/PRBS.h:44-60 | the state stays within its bits, and a state that is not zero never becomes zero |
| PrbsGenerators.CycleCloses | CommonLibs/PRBS.h:62-63 | from any state the generator is finished again after at most 2^n - 1 bits |
| PrbsGenerators.Period | tests/CommonLibs/PRBSTest.cpp:24-35 | generating bits until `isFinished` ends, after at most 2^n - 1 of them, at the first return to the start state |
| PrbsGenerators.Synchronises | CommonLibs/PRBS.h:51-60 | fed with n bits of a generator, a register in any state has the generator's state |
| PrbsGenerators.StandardGenerators | CommonLibs/PRBS.h:77-108 | the generators of 9, 15 and 64 bits have their last coefficient |
| PrbsGenerators.Prbs.GenerateBit | CommonLibs/PRBS.h:44-49 | the bit that falls out, and the state stepped |
| PrbsGenerators.Prbs.ProcessBit | CommonLibs/PRBS.h:56-60 | the state shifted and folded in place |
| PrbsPeriods.FullPeriods | tests/CommonLibs/PRBSTest.cpp:37-44 | from any state but zero, the generator of 9 bits first comes back after exactly 511 bits and that of 15 bits after exactly 32767 |
| PrbsPeriods.StandardPeriods | tests/CommonLibs/PRBSTest.cpp:24-44 | generating bits until `isFinished` takes 511 and 32767 of them |
| PrbsPeriods.TrinomialAt | CommonLibs/PRBS.h:80-97 | a generator of three terms satisfies the recurrence of its polynomial with all exponents times any power of two |
| PrbsPeriods.AllOnOneCycle | CommonLibs/PRBS.h:62-63 | if the cycle through one start state is as long as can be, it is the cycle of every state but zero |
| BitVectors.FieldRoundTrip | CommonLibs/BitVector.cpp:73-141 | a field read back, in either order, is the value modulo 2^length, for any length |
| BitVectors.DigitsOfValue | CommonLibs/BitVector.cpp:73-129 | writing back what was read restores the bits |
| BitVectors.DigitsAt | CommonLibs/BitVector.cpp:120-129 | bit i of n written is the one of weight 2^(n-1-i) |
| BitVectors.ValueAt | CommonLibs/BitVector.cpp:73-82 | the number read has the lowest bit of element i at weight 2^(n-1-i) |
| BitVectors.UnpackedPacked | CommonLibs/BitVector.cpp:301-326 | unpacking after packing restores every bit, for any size |
| BitVectors.PackedUnpacked | CommonLibs/BitVector.cpp:301-326 | packing after unpacking restores the octets but for the unused bits of the last |
| BitVectors.PackedAt | CommonLibs/BitVector.cpp:301-312 | bit i goes to octet i/8, the first of eight to its highest bit |
| BitVectors.PackedRest | CommonLibs/BitVector.cpp:301-312 | the bits of the last octet that no bit is for are zero |
| BitVectors.UnpackedAt | CommonLibs/BitVector.cpp:315-326 | bit i comes from octet i/8, highest bit first |
| BitVectors.FlippedTwice | CommonLibs/BitVector.cpp:170-199 | reversing the bits of every octet twice changes nothing |
| BitVectors.FlippedAt | CommonLibs/BitVector.cpp:170-199 | bit i of an octet comes from its other end, a partial octet is kept |
| BitVectors.BitVector.PeekField | CommonLibs/BitVector.cpp:73-82 | the number written in the field, modulo 2^64 |
| BitVectors.BitVector.PeekFieldReversed | CommonLibs/BitVector.cpp:87-96 | the number written in the field backwards, modulo 2^64 |
| BitVectors.BitVector.FillField | CommonLibs/BitVector.cpp:120-129 | the field holds the low bits, every other bit is as it was |
| BitVectors.BitVector.FillFieldReversed | CommonLibs/BitVector.cpp:132-141 | the same with the lowest bit first |
| BitVectors.BitVector.Pack | CommonLibs/BitVector.cpp:301-312 | the octets of the vector, and nothing beyond them |
| BitVectors.BitVector.Unpack | CommonLibs/BitVector.cpp:315-326 | the vector is what the octets hold |
| BitVectors.BitVector.Reverse8 | CommonLibs/BitVector.cpp:170-189 | eight bits reversed in place |
| BitVectors.BitVector.Lsb8Msb | CommonLibs/BitVector.cpp:193-199 | every whole octet reversed, a partial one kept |

## Left out

- Transceivers.Transceiver.DriveTxFifo: the radio clock moves for as many passes as
  one likes and then stands, since with a clock that outruns it the loop need not
  end. The wait for the next clock tick at the end is left out.
- TxChannels.TxChannel.PushSlot: a burst another thread queues between two turns of
  the stale loop counts as queued before the slot; only the order in which stale
  bursts are dropped could differ.
- Transceivers.Transceiver.AddRadioVector: bursts must be for a time in the
  channel's window around the deadline, under half a hyperframe wide, and for a
  frame inside the hyperframe; the source checks neither. `FarFutureLooksPast`
  says what becomes of a burst further ahead.
- RadioInterfaces.RadioInterface.DriveTransmitRadio: burst lengths are those of
  the slot pattern. `TransmitPath.Transmit` shows that the transceiver hands over
  such bursts if the modulators make them and the filler table starts with them;
  an EDGE filler at one sample per symbol does not have such a length.
- ResampleStream.Upsampler.PushBlock: what memory holds before the first segment is
  anything, because the source never clears it.
- Resamplers.Resampler.Init: the prototype filter is any real sequence; the sinc
  and its window are not modelled, nor is the length at which they are computed.
- UsrpPackets.WriteSamples: the number of packets is a ceiling in exact
  arithmetic, where the source divides floats; byte order is that of the host.
- UsrpPackets.TimesExactIff: the counter of upper halves is 64 bits wide and
  shifted out as on a 64-bit host; where the samples go after that is left out.
- PrbsGenerators.Period: for the generator of 64 bits, whose period no test waits
  for, only the bound 2^64 - 1 is shown.
- Reals for floats: rounding is not modelled, and partitions are rows of one
  two-dimensional array instead of separate allocations.
- `std::priority_queue` is its contract: some element that compares below no
  other is on top. InterthreadPriorityQueue has the protocol of InterthreadQueue,
  but its read waits on the size, so that no null pointer is swallowed there.
- InterthreadQueueWithWait, InterthreadMap and the other containers of
  CommonLibs/Interthread.h: the same protocol with a second signal, or none.
- The 32-bit width of the FIFO's item count.
- `PRBS::state(uint64_t)`: its mask shifts an `int`, which is undefined for 32 to
  63 bits.
- `BitVector::applyPoly`, `readField`, `invert` and the soft-bit vectors: simple
  accumulations, or position bookkeeping around what is here.
- Modulation, demodulation and detection (Transceiver52M/sigProcLib.cpp): floating
  point and transcendental.
- Channelizer, synthesis filterbank and FFT: their meaning hinges on a foreign
  library's plan.
- RadioInterfaceMulti: its history loop refills from the output instead of the
  input, so it does not compute the streaming identity.
- Conversion between floats and device shorts: the SSE forms round and saturate
  where the base forms truncate. ARM assembly.
- UHD, LimeSuite and the rest of the USRP1 driver, sockets, threads, logging,
  control-command parsing, the tables of expected burst types: input and output,
  foreign calls, or finite lookups.
