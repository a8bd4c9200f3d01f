# Audio capture manager: a verified model

The audio capture manager takes audio buffers from a capture device, queues them, hands them to a
changing set of clients, and lets a music-id client cut clips from a bounded history of what it was
handed. This project models that pipeline in Dafny and proves what its parts promise each other:

- **Queue and fan-out** (`QueueProtocol`, `QueueInvariants`, `QueueTheorems`, `QueueManager`). The producer,
  the consumer thread and the clients form a step system; one step is one critical section or one
  callback, and a run is any interleaving of steps. The theorems are about every state every run can
  reach. `QueueManager.QMgr` is the same code as methods over mutable fields; each method is proved to
  take exactly the protocol's step, so the theorems hold of the object.
- **Pipeline** (`Pipeline`). The queue protocol and the music-id client put together, from the device to the
  history.
- **Locks** (`LockOrder`). Every activity is written out as its sequence of lock operations; any number of
  threads interleave them.
- **Converter** (`Striding`, `ConverterSpec`, `Converter`). The offsets the strided loop reads, compared with
  the flat form over one uninterrupted stream; the unrolled downmix compared with the plain one; budgets,
  sinks and durations.
- **WAV files** (`Wav`). The header is written with empty sizes and patched afterwards; the reader used for
  the round trip walks the chunk list and knows only the format (chapter 3, "Waveform Audio File Format
  (WAVE)", of the IBM/Microsoft Multimedia Programming Interface and Data Specifications 1.0).
- **Music-id client** (`MusicIdSpec`, `MusicIdTheorems`, `MusicIdSchedule`, `MusicIdPromise`, `MusicIdClips`,
  `MusicIdClient`). The trimmed history, the request scheduler, what a pending request may count on, and the
  clips; the object's methods are proved to take the steps of the sequential machine the theorems are about.
- **Session table** (`Sessions`, `SessionManager`). The handlers on the session list, and the list's link to
  the client list and the device. The handlers call the `QMgr` and `MusicIdClient` objects above.

`AudioProperties` holds the formats, rates and the 32-bit products. `dafny verify dfyconfig.toml` checks
everything.

## Where the code departs from what one would expect

The model follows the code. Each departure is stated as an exact condition or a concrete case:

- A delivery pass without clients clears the outgoing queue and never frees its buffers. All memory comes
  back if and only if no such pass happened (`LeakFreeExact`); `ClientlessPassLeaks` is a run in which it does.
- The strided loop moves its pointer by the carry of the previous buffer but does not deduct it from the
  bytes that remain (`src/audio_converter.cpp:141-153`). It reads the offsets its comment describes if and
  only if the buffer sizes are carry-safe (`CodeIsFlatExactly`), and `CodeDependsOnSplit` gives sizes for
  which it does not; with the carry deducted the split never matters (`FixedIsFlat`). For buffers of any
  sizes it stays inside them if and only if each non-empty buffer's overshoot, that of the buffer before it
  and one read together fit into a leap (`AllReadsInsideExactly`); for whole frames, if the two overshoots
  stay below one leap (`AlignedReadsInside`). Carry-safe sizes of whole frames and some others meet that
  (`SafeReadsInside`, `OutOfStepInside`). Where the loop would read past a buffer's end the model has no
  bytes to give it, so converting requires the reads to be inside.
- The unrolled downmix ignores its budget (`FastIsSlowExactly`, `FastClipFitsExactly`) and writes from the
  start of the sink whatever its offset (`FastDownmix`), which is appending for all contents if and only if
  the sink was empty or there is nothing to write (`FastNeedsEmptySink`). Its tail loop ends only for
  buffers of whole frames (`TailEndsExactly`).
- `passthrough` stops once the budget is exceeded, the other conversions once it is met: their cuts are
  taken at `size + 1` and `size`.
- A property change keeps the history limit computed for the old rate. As long as no change raises the rate,
  every pending request keeps what it was promised (`PendingKeepsItsClip`). Otherwise, and from any state a
  run can reach, the promise outlasts everything but a higher rate if and only if it holds at that
  moment and either each pending request, at the rate in force, is at most the present limit, or one is due
  at the next tick, which then computes the limit anew (`PromiseSurvivesExactly`, `ChangeSurvivesExactly`).
  That it holds at that moment is a condition of its own, since a higher rate at once asks for more bytes
  than may have been kept (`RaiseBreaksAtOnce`). `StaleLimitLosesAudio` is a run in which a request loses
  half.
- A clip's sink is sized for one second more than the clip and does not check for room, so grabbing requires
  that the clip fits. Without a conversion it does if and only if the whole queue is no longer than the clip
  and one second, or the buffers taken exceed the clip by at most that second (`ReadyUnconvertedExactly`),
  so always if no buffer is longer than a second (`ReadyUnconverted`), but not for one long buffer
  (`LongBufferDoesNotFit`); with a downmix if and only if the whole queue is no longer than the clip and one
  second (`ReadyDownmixExactly`), which a queue kept for a longer request need not be (`ShortGrabDoesNotFit`).
- Clips are cut from the oldest end of the history. The newest buffer is in the clip if and only if the
  others fit the budget (`WholeQueueExactly`), which unequal buffers can break even right after a trim
  (`UnequalBuffersDropNewest`).
- With conversion on, anything but 16-bit capture at 48 kHz is refused by the converter, and the grab still
  reports success, with an empty clip (`MusicConversions`, `GrabLastNSeconds`).
- `grab_fresh_sample` answers -1, so the sample handler reports every fresh request it queued as a general
  failure (`GetSample`).
- Trimming would look at the front of an empty queue if and only if the limit exceeded the total by more
  than 2^31 (`FrontOfEmptyExactly`); supported durations keep the limit far below that.
- An output format without a sampling rate makes the converter divide by zero when the formats are
  compatible; `DividesByZero` marks those inputs.

## Model

| member | source | states |
|---|---|---|
| AudioProperties.DataRateIsExact | src/audio_capture_manager.cpp:93-155 | the data rate is whole frames per second, and no 32-bit product of it with a clip or queue duration wraps |
| AudioProperties.RateTable | src/audio_capture_manager.cpp:93-155 | the data rates as numbers: 16-bit mono from 32000 bytes per second at 16 kHz to 96000 at 48 kHz, every other format 2, 3 or 9 times that |
| AudioProperties.BadPropertiesExactly | src/audio_capture_manager.cpp:233-239 | rejected are exactly the formats and frequencies past the last enumerator |
| AudioProperties.QueueSizeIsExact | src/audio_capture_manager.cpp:243-245 | the buffer limit of the incoming queue is 30 seconds' bytes over the threshold, without wrap-around |
| QueueTheorems.NoLostWakeup | src/audio_capture_manager.cpp:290-356 | in every reachable state a blocked consumer either waits on an empty incoming queue or has exactly one post waiting for it; it is stuck only on an empty queue |
| QueueTheorems.ConsumerDrains | src/audio_capture_manager.cpp:306-356 | from every reachable state the consumer alone takes exactly a counted number of steps, and is through only when asleep with both queues empty and everything queued processed in order |
| QueueTheorems.QueuedIsProcessed | src/audio_capture_manager.cpp:306-356 | after any run such steps exist, so everything queued gets processed if everybody else pauses |
| QueueTheorems.SwapNeverFlushes | src/audio_capture_manager.cpp:68-78 | every swap moves a non-empty incoming queue into an empty outgoing one, so its flush branch frees nothing |
| QueueTheorems.FifoConservation | src/audio_capture_manager.cpp:290-388 | all buffers ever added are, in order, the processed, outgoing and incoming ones and whole incoming queues that had passed the limit |
| QueueTheorems.FifoExact | src/audio_capture_manager.cpp:290-305 | processed, outgoing and incoming together are everything added if and only if no add found the queue over its limit |
| QueueTheorems.LimitInForce | src/audio_capture_manager.cpp:243-245 | after every run the limit is the one the last property change asked for, or the first one |
| QueueTheorems.OverflowRecordsLimit | src/audio_capture_manager.cpp:295-300 | every flushed queue is the one some add of the run found longer than the limit last asked for before it |
| QueueTheorems.NeverOverflowsExactly | src/audio_capture_manager.cpp:295-300 | no queue is flushed if and only if no add of the run finds more buffers than the limit last asked for before it |
| QueueTheorems.RegisteredClientSeesAll | src/audio_capture_manager.cpp:369-388 | over any stretch in which a client stays registered it is handed exactly the buffers processed meanwhile, in order, each once |
| QueueTheorems.RefcountIsOwed | src/audio_capture_manager.cpp:358-388 | once its pass has begun a buffer is allocated exactly while a client is owed it, and its count is the number of clients owed |
| QueueTheorems.FreedAtLastRelease | src/audio_buffer.cpp:51-67 | a release frees the buffer if and only if the releasing client is the last one owed it |
| QueueTheorems.FreedExactlyOnce | src/audio_buffer.cpp:51-72 | every buffer ever added is either still allocated or has been freed exactly once |
| QueueTheorems.LeakFreeExact | src/audio_capture_manager.cpp:369-388 | after draining and releasing everything no buffer is left if and only if no delivery pass ran without clients |
| QueueTheorems.ClientlessPassLeaks | src/audio_capture_manager.cpp:369-388 | a run that ends idle, with no client and one buffer never freed |
| QueueTheorems.IncomingBound | src/audio_capture_manager.cpp:295-300 | the incoming queue never holds more than one buffer above the largest limit of the run |
| QueueTheorems.IncomingBytesBound | src/audio_capture_manager.cpp:290-305 | with buffers no larger than the threshold it never holds more than 30 seconds of audio plus one threshold |
| QueueManager.BufferPool.UnrefBuffer | src/audio_buffer.cpp:51-67 | a count of one frees the buffer, any other is decremented, with unsigned wrap-around |
| QueueManager.QMgr.FlushQueue | src/audio_capture_manager.cpp:80-89 | frees exactly the buffers of the queue |
| QueueManager.QMgr.NotifyDataReady | src/audio_capture_manager.cpp:58-67 | posts once if the consumer had asked, and clears the request |
| QueueManager.QMgr.AddData | src/audio_capture_manager.cpp:290-305 | is the protocol's add step: allocate, flush a queue longer than the limit, append, notify; the buffer starts with the number of clients |
| QueueManager.QMgr.SwapQueues | src/audio_capture_manager.cpp:68-78 | exchanges the queues after freeing what the outgoing one still held |
| QueueManager.QMgr.QueueCheck | src/audio_capture_manager.cpp:322-335 | takes what has arrived without waiting, or asks to be woken, exactly when the protocol does |
| QueueManager.QMgr.SwapAfterWake | src/audio_capture_manager.cpp:348-351 | after a wake the outgoing queue is the non-empty incoming one and nothing was freed |
| QueueManager.QMgr.UpdateBufferReferences | src/audio_capture_manager.cpp:358-367 | sets the count of every outgoing buffer to the number of clients |
| QueueManager.QMgr.OpenPass | src/audio_capture_manager.cpp:373-375 | at any moment the consumer may begin a pass, it takes the protocol's step and touches only live buffers |
| QueueManager.QMgr.DeliverOne | src/audio_capture_manager.cpp:378-385 | one callback of a pass, whatever came between, is the protocol's step |
| QueueManager.QMgr.ClosePass | src/audio_capture_manager.cpp:386-387 | unlocking and then clearing the outgoing queue are the protocol's two steps |
| QueueManager.QMgr.ProcessData | src/audio_capture_manager.cpp:369-388 | an uninterrupted pass is a legal run of the protocol after which every client has been handed exactly the outgoing queue |
| QueueManager.QMgr.RegisterClient | src/audio_capture_manager.cpp:390-410 | adds a client once and starts the device for the first |
| QueueManager.QMgr.UnregisterClient | src/audio_capture_manager.cpp:411-424 | removes a client and stops the device after the last |
| QueueManager.QMgr.AdoptProperties | src/audio_capture_manager.cpp:226-247 | rejects bad properties with -1 and changes nothing; others are adopted, and the queue limit is then 30 seconds of their bytes over their threshold |
| QueueManager.QMgr.SetAudioProperties | src/audio_capture_manager.cpp:223-268 | adopts good properties and with them that limit, tells every client once and leaves a started device running with them |
| QueueManager.QMgr.ReleaseBuffer | src/audio_capture_manager.cpp:536-539 | a release by a holder is safe and is the protocol's release step |
| Pipeline.HandedFromTheFirst | src/audio_capture_manager.cpp:290-424 | a client registered before any capture has been handed the processed buffers from the first, in order, as far as the consumer has got |
| Pipeline.QueuedIsAllocated | src/music_id.cpp:91-157 | if the music-id client gave back what its history released, every buffer in its queue is held by it and still allocated |
| Pipeline.ClipIsLatestCapture | src/music_id.cpp:201-233 | end to end, with equal buffers and after a trim to n seconds: an n-second clip is the last n seconds captured before the last buffer handed over, rounded up to whole buffers |
| Pipeline.QueueIsLatestCapture | src/music_id.cpp:91-157 | end to end, without overflow: the music-id history is what the device captured, without a gap, and its queue is the latest part of it |
| LockOrder.CodeOrdered | src/audio_capture_manager.cpp:223-424 | every activity takes locks upwards only, the queue mutex and session mutex alone, and gives all of them back |
| LockOrder.LocksHeldTogether | src/audio_capture_manager.cpp:358-388 | in every reachable state no thread holds the queue mutex with another lock or two client mutexes, and no two threads hold the same lock |
| LockOrder.NoCyclicWait | src/music_id.cpp:317-364 | no run of any number of threads reaches a cyclic wait |
| LockOrder.DeadlockFree | src/audio_buffer.cpp:50-80 | while any thread has a lock operation left, some thread can execute its next one |
| Striding.CodeIsFlatExactly | src/audio_converter.cpp:135-170 | the strided loop reads at exactly every whole leap of the concatenated stream if and only if the sizes are carry-safe |
| Striding.ReadsInsideExactly | src/audio_converter.cpp:141-153 | a buffer of any size is read within its bounds if and only if it is empty or carry, overshoot and one read fit into a leap |
| Striding.AllReadsInsideExactly | src/audio_converter.cpp:139-163 | all reads of a list of buffers of any sizes stay inside if and only if every non-empty buffer's overshoot, its predecessor's and one read fit into a leap |
| Striding.AlignedReadsInside | src/audio_converter.cpp:141-153 | for whole frames it is enough, and needed, that carry and overshoot stay below one leap |
| Striding.OutOfStepInside | src/audio_converter.cpp:139-163 | sizes that are read at wrong offsets and still inside their buffers |
| Striding.SafeReadsInside | src/audio_converter.cpp:139-163 | carry-safe frame-aligned sizes keep every read inside its own buffer |
| Striding.FixedIsFlat | src/audio_converter.cpp:155-162 | with the carry deducted too, the reads are the flat reads for every list of sizes |
| Striding.FixedListReadsInside | src/audio_converter.cpp:155-162 | and every read of every list of frame-aligned buffers stays inside its buffer, buffers shorter than the carry included |
| Striding.CodeDependsOnSplit | src/audio_converter.cpp:147-163 | two splits of the same 20 bytes which the code as written reads differently |
| ConverterSpec.StridedIsFlat | src/audio_converter.cpp:120-172 | for carry-safe buffers the chunk-by-chunk output is the flat output, with every read in range |
| ConverterSpec.FixedOutputIgnoresSplit | src/audio_converter.cpp:155-162 | under the intended rule the output depends on the bytes only, not on their split into buffers |
| ConverterSpec.StridedAt | src/audio_converter.cpp:120-172 | byte by byte, the b-th byte of the k-th read of carry-safe whole frames is byte b of the k-th whole leap of the bytes given |
| ConverterSpec.OperationTable | src/audio_converter.cpp:32-118 | the operation for every pair of properties: equal frequencies need no striding, 48 to 24, 32 to 16 and 48 to 16 kHz are strided, no other pair converts, and no format but to mono; division by zero only for compatible formats and an output without a rate |
| ConverterSpec.RatioTable | src/audio_converter.cpp:130-133 | 48 to 16 kHz keeps one frame of three, the other strided pairs one of two |
| ConverterSpec.ConvertibleExactly | src/audio_converter.cpp:120-251 | a conversion reads inside its buffers: a strided one if and only if the format has a frame and the overshoots of the buffers taken leave room, a downmix if and only if those are whole frames, any other always |
| ConverterSpec.ConsumedEnough | src/audio_converter.cpp:120-313 | a conversion takes a prefix of the queue that is all of it or meets the budget, which a pass-through exceeds |
| ConverterSpec.CutOvershoot | src/audio_converter.cpp:306-310 | the buffers processed overshoot the budget by less than the largest buffer |
| ConverterSpec.CutTakesAll | src/audio_converter.cpp:306-310 | the whole queue is processed if and only if the budget is not reached before its last buffer |
| ConverterSpec.LeapIsWholeFrames | src/audio_converter.cpp:130-133 | every supported stride is two or three whole frames, and bytes written are to the leap what the data rates are |
| ConverterSpec.DurationPreserved | src/audio_converter.cpp:120-313 | output bytes times input rate is processed bytes times output rate |
| ConverterSpec.ClipFits | src/music_id.cpp:213-223 | a clip fits a sink of one second more when no buffer is longer than a second |
| ConverterSpec.FastClipFitsExactly | src/audio_converter.cpp:187-224 | the unrolled downmix fits that sink if and only if the whole queue is no longer than clip plus one second |
| ConverterSpec.FastIsSlowExactly | src/audio_converter.cpp:187-251 | unrolled and plain downmix leave the same bytes if and only if nothing lies beyond the budget; a budget of the queue's size is enough |
| Converter.FastNeedsEmptySink | src/audio_converter.cpp:191-224 | writing from the start of the sink is appending, for all samples, if and only if the sink was empty or there are none |
| ConverterSpec.TailEndsExactly | src/audio_converter.cpp:214-221 | the unsigned countdown of the tail loop reaches zero if and only if the buffer is whole frames |
| Converter.ConversionIs | src/audio_converter.cpp:32-343 | what is written, for every pair of properties, in terms of the queued bytes alone: a prefix of the queue, its left samples byte by byte, the bytes at the strided offsets, or nothing |
| Converter.MemorySink.WriteData | src/audio_converter.cpp:365-371 | appends the bytes at the write offset |
| Converter.AudioConverter.ProcessConversionParams | src/audio_converter.cpp:32-118 | the operation is chosen by the compatibility of formats and rates alone |
| Converter.AudioConverter.DownsampleAndDownmix | src/audio_converter.cpp:120-172 | appends exactly the strided output of the buffers the budget takes |
| Converter.AudioConverter.SlowDownmix | src/audio_converter.cpp:229-250 | appends the first sample of every frame of the buffers the budget takes |
| Converter.FastDownmix | src/audio_converter.cpp:187-226 | eight frames a round and a tail loop leave every left sample of the whole queue from the start of the buffer, and advance the offset from where it stood |
| Converter.AudioConverter.Passthrough | src/audio_converter.cpp:295-313 | appends the shortest prefix of buffers exceeding the budget, or all |
| Converter.AudioConverter.Convert | src/audio_converter.cpp:315-343 | what each conversion appends to its sink, and when it fails |
| Wav.UpdateFileHeaderSize | src/music_id.cpp:472-487 | overwrites bytes 4-7 and 40-43 only and restores the write position |
| Wav.GrabToFile | src/music_id.cpp:235-283 | the file is the clip, behind a finished header if headers are on; what follows the header is, unconverted, the shortest prefix of the queue exceeding the clip or all of it, and from stereo to mono at one frequency the left samples of the buffers that meet it; an empty queue yields -1 and no file |
| Wav.ClipFileRoundTrip | src/music_id.cpp:428-487 | reading a finished file returns channels, rate, byte rate as rate times block align, block align, bits, length minus 8, and the audio |
| Wav.ClipFileBytes | src/music_id.cpp:428-487 | the finished file byte by byte: the chunk names, PCM, and by format and frequency the numbers of channels, bytes a frame, bits and samples a second, low byte first, with the audio from byte 44 |
| Wav.SizeFieldsExactly | src/music_id.cpp:264-268 | the patched sizes are file length minus 8 and minus 44 if and only if they fit 32 bits |
| MusicIdTheorems.FrontOfEmptyExactly | src/music_id.cpp:137-157 | the trim loop looks at the front of an empty queue if and only if the limit exceeds the total by more than 2^31 |
| MusicIdTheorems.SuffixOfHistory | src/music_id.cpp:91-157 | in every run the queue is what was received without what was released from its front, and the total is its size |
| MusicIdTheorems.TrimInRun | src/music_id.cpp:137-157 | in every run a trim drops nothing or leaves the shortest suffix of the whole history holding the limit |
| MusicIdSchedule.ServedExactlyOnce | src/music_id.cpp:317-364 | in every run each request of N seconds is served once, at the (N+1)-th tick after it, same-tick requests in queue order |
| MusicIdSchedule.PendingExactly | src/music_id.cpp:285-364 | the request list is exactly the requests not yet due, in order, with the ticks that remain |
| MusicIdPromise.PendingKeepsItsClip | src/music_id.cpp:100-157 | as long as no property change raises the data rate, each pending request finds in the queue what came since it or its full length; the limit is at least the rate times the longest pending length, and exactly that while the rate is unchanged |
| MusicIdPromise.SettingsInForce | src/music_id.cpp:100-125 | after every run the precapture length is the one last asked for, 6 seconds before any is, and the properties are the last set |
| MusicIdPromise.ClipsAreServedInFull | src/music_id.cpp:328-349 | in the same runs each served request was served from the latest buffers of its tick, holding what came since it or its full length at that tick's rate |
| MusicIdPromise.PromiseSurvivesExactly | src/music_id.cpp:100-157 | in any reached state the promise to the pending requests outlasts everything that does not raise the data rate if and only if it holds now and each fits the present limit or one is due at the next tick |
| MusicIdPromise.ChangeSurvivesExactly | src/music_id.cpp:115-125 | the same for a change of properties, judged before it by the new rate; a change that does not raise the rate breaks no promise |
| MusicIdPromise.RaiseBreaksAtOnce | src/music_id.cpp:100-157 | a run after which every length fits the limit at a new rate, and raising to it still asks for more than was kept |
| MusicIdPromise.StaleLimitExactly | src/music_id.cpp:115-125 | after one property change the limit is the number a new computation would give if and only if the rate is the same or nothing is kept |
| MusicIdPromise.StaleLimitLosesAudio | src/music_id.cpp:115-157 | a run in which a request made before a rate change loses half of what it was promised |
| MusicIdClips.MusicConversions | src/music_id.cpp:212-223 | with conversion on only 16-bit capture at 48 kHz yields audio; everything else an empty clip |
| MusicIdClips.WholeQueueExactly | src/audio_converter.cpp:295-313 | a clip is the whole queue if and only if the queue without its newest buffer fits the budget |
| MusicIdClips.ClipIsLatest | src/music_id.cpp:201-233 | with equal buffers, after a trim to n seconds, an n-second clip is the latest n seconds received, rounded up to whole buffers |
| MusicIdClips.UnequalBuffersDropNewest | src/music_id.cpp:185-233 | a run with unequal buffers, ending in a trim, after which the precapture clip leaves out the newest buffer |
| MusicIdClient.ReadyUnconvertedExactly | src/music_id.cpp:218-223 | a grab without conversion fits its sink if and only if the whole queue does or the buffers exceed the clip by at most one second |
| MusicIdClient.ReadyUnconverted | src/music_id.cpp:218-223 | so it fits if no buffer is longer than a second |
| MusicIdClient.LongBufferDoesNotFit | src/music_id.cpp:185-223 | a run after which an unconverted precapture grab does not fit its sink, because one buffer is too long |
| MusicIdClient.ReadyDownmixExactly | src/music_id.cpp:212-217 | a downmixed grab is safe if and only if the queue is whole frames and no longer than the clip and one second |
| MusicIdClient.ShortGrabDoesNotFit | src/music_id.cpp:185-223 | a run after which a downmixed precapture grab does not fit its sink, because a longer request is pending |
| MusicIdClient.MusicIdClient.DataCallback | src/music_id.cpp:91-98 | appends the buffer and its size |
| MusicIdClient.MusicIdClient.TrimQueue | src/music_id.cpp:137-157 | pops, releases and subtracts exactly the buffers the trim drops |
| MusicIdClient.MusicIdClient.ComputeQueueSize | src/music_id.cpp:302-315 | the limit is the longest of precapture and pending lengths in bytes |
| MusicIdClient.MusicIdClient.SetPrecaptureDuration | src/music_id.cpp:100-113 | is the machine's precapture step |
| MusicIdClient.MusicIdClient.GrabFreshSample | src/music_id.cpp:285-300 | queues the request with the next id and answers -1 |
| MusicIdClient.ClipUnconverted | src/music_id.cpp:201-233 | the clip without conversion, and from 16-bit mono at 48 kHz, is the shortest non-empty prefix of the queue longer than the clip asked for, or all of it |
| MusicIdClient.ClipDownmixed | src/music_id.cpp:201-233 | from 16-bit stereo at 48 kHz it is byte by byte the left samples of the whole queue |
| MusicIdClient.ClipRefused | src/music_id.cpp:201-233 | from anything else with conversion on it is empty |
| MusicIdClient.ClipsMean | src/music_id.cpp:328-349 | a tick yields one such clip for each due request, in order, each of its own length |
| MusicIdClient.GrabDeliversLatest | src/music_id.cpp:201-233 | with equal buffers, a grab right after a trim to n seconds appends the latest n seconds received, in whole buffers, to the outbox |
| MusicIdClient.TickDeliversLatest | src/music_id.cpp:317-364 | and so does a tick for each due request of n seconds |
| MusicIdClient.TickIsSafe | src/music_id.cpp:317-364 | without conversion and with buffers of at most a second every clip a tick makes fits its sink |
| MusicIdClient.MusicIdClient.GrabLastNSeconds | src/music_id.cpp:201-233 | appends the clip to the outbox, the prefix of the queue, its left samples or nothing as setting and format say, or answers -1 for an empty queue |
| MusicIdClient.MusicIdClient.SendClip | src/music_id.cpp:160-183 | a connection gets the oldest clip of the outbox, if any |
| MusicIdClient.MusicIdClient.Tick | src/music_id.cpp:317-364 | one round of the worker visits every pending request once while erasing, serves the due ones in order, each with its own such clip, and then trims |
| Sessions.SessionsAgree | src/acm_session_mgr.cpp:205-381 | over every run ids are distinct and issued, at most one buffered-file session exists, q_mgr's clients are those of the enabled sessions without duplicates, and the device is started if and only if one is enabled |
| Sessions.TableMeaning | src/acm_session_mgr.cpp:205-381 | the table is what the calls so far say, and close, start and stop answer bad session id if and only if the session was never opened, was closed or was replaced |
| Sessions.OpenAnswers | src/acm_session_mgr.cpp:205-273 | after every run an open succeeds if and only if it is for source 0 and output type 0 or 1, which is if and only if the session it numbers is live afterwards; otherwise it answers invalid arguments and changes nothing |
| SessionManager.AcmSessionMgr.OpenHandler | src/acm_session_mgr.cpp:205-273 | exactly for source 0 and output types 0 and 1 it answers 0, counts the session and lists it last under the next id, replacing and stopping a buffered-file session; otherwise it answers 5 and changes nothing |
| SessionManager.AcmSessionMgr.CloseHandler | src/acm_session_mgr.cpp:275-314 | removes the session and stops its client if it was enabled, or answers bad session id |
| SessionManager.AcmSessionMgr.GetSession | src/acm_session_mgr.cpp:316-331 | finds the session with the id, if listed |
| SessionManager.AcmSessionMgr.StartHandler | src/acm_session_mgr.cpp:333-356 | registers the client of a disabled session, or answers bad session id |
| SessionManager.AcmSessionMgr.StopHandler | src/acm_session_mgr.cpp:358-381 | unregisters the client of an enabled session, or answers bad session id |
| SessionManager.AcmSessionMgr.SetAudioPropsHandler | src/acm_session_mgr.cpp:572-646 | goes through the session's client, leaves the table alone, notifies the clients of an actual change, leaves a started device running with the properties in force, and the music-id client with the new rate |
| SessionManager.SetOutputProps | src/acm_session_mgr.cpp:649-682 | only durations below the maximum reach a buffered-file client |
| SessionManager.GetSample | src/acm_session_mgr.cpp:684-749 | result codes of a sample request, that a precapture request puts its clip, as GrabLastNSeconds makes it, into the outbox, and that a queued fresh request is reported as a failure |

## Left out

- RMF_AudioCapture device calls, IARM bus registration and events, the RFC shell call and logging: foreign calls; the device is a started flag with the settings it was last started with, and its data are add steps at any moment.
- rmfAudioCapture.h is not part of this model: formats and frequencies are datatypes with one constructor for any enumerator the parameter switches do not name and one for out-of-range values.
- src/ip_out.cpp and src/socket_adaptor.cpp: socket, pipe and select plumbing; an ip_out client is a client that releases each buffer once. Its own lock is not in the lock protocol, since close_output joins its worker while holding it.
- src/acm_iarm_interface.cpp: not built, and its call of grab_fresh_sample does not match.
- The format and frequency translation tables of the session handlers, and the handlers that only read properties.
- data_monitor, its thread and its mutex, and flush_system, which is never called.
- Construction and destruction of q_mgr and of the music-id client: models start with the consumer alive; stopping the worker threads is not modelled.
- The read of m_num_clients in add_data without the client-list mutex: the count a buffer is created with is overwritten before the buffer is handed out, and the model reads it in one step.
- File, stream and allocation errors.
- Real time: a tick of the worker is a step, and nothing relates it to the rate at which data arrive.
- Wrap-around of the session and request counters after 2^31 or more calls, and of the byte budgets of a grab, which cannot happen for supported durations (DataRateIsExact).
- Audio buffers as objects: in q_mgr a buffer is an entry of a pool with its count and size, in the converter and the music-id client it is its bytes.
- Sessions, requests and outbox clips are values in the lists that hold them, so the lifetime of those heap objects is not modelled; a finished sink is stored as its bytes.
- The file delivery of the worker thread: GrabToFile covers one file-mode grab, Tick serves requests in socket mode.
- FastDownmix: writes bytes where the source assigns 16-bit samples; the bytes are the same on a machine of either byte order. Buffers of broken frames and queues larger than the sink are outside its contract: the source's tail loop does not end for the former (TailEndsExactly) and writes past the sink for the latter.
- DownsampleAndDownmix: buffer sizes for which the source reads past a buffer's end are outside its contract; AllReadsInsideExactly says which they are.
- SlowDownmix: buffers of broken frames are outside its contract, for which the source's unsigned countdown wraps and reads on (TailEndsExactly).
- Passthrough: output beyond the sink is outside its contract; ReadyUnconvertedExactly says when a grab stays within.
- ClipUnconverted: grabs that would overrun their sink are excluded, as for GrabLastNSeconds; so for ClipDownmixed, ClipRefused and ClipsMean.
- ConversionIs: buffer sizes for which the loops read past a buffer's end are excluded, as for DownsampleAndDownmix.
- GrabToFile: buffer sizes for which the conversion reads past a buffer's end are outside its contract, as for DownsampleAndDownmix.
- Convert: inherits both limits, and requires the output to fit the sink, which the source does not check.
- GrabLastNSeconds: a clip larger than its sink is outside its contract; ReadyUnconvertedExactly and ReadyDownmixExactly say when it fits.
- Tick: the same for the requests it serves.
- GetSample: the same for a precapture request.
- AdoptProperties: a threshold of zero, on which the source divides by zero, is outside its contract.
- SetPrecaptureDuration: durations above 120 seconds, which the session manager never passes on, are outside its contract; for a limit more than 2^31 above the total the trim would look at the front of an empty queue (FrontOfEmptyExactly).
- GrabFreshSample: durations above 120 seconds, for the same reason.
- SetAudioProperties: a threshold of zero divides by zero in the source and is excluded. The two critical sections of the source run one after the other; AdoptProperties covers the first on its own.
- ProcessData: covers a pass that nothing interrupts; OpenPass, DeliverOne and ClosePass cover its steps with anything in between.
- PromiseSurvivesExactly: that the condition is needed is proved for queues below 2^31 - 1 bytes, beyond which the signed excess no longer has the sign of the difference; that it is enough is proved for all.
- SetAudioPropsHandler: excludes a threshold of zero like AdoptProperties. The source's music-id client is a parameter, since the table holds clients by number. The settings event is recorded and has no effect, since no client overrides notify_event.
