# A verified model of the voice recorder and its schedulers

A Dafny model of the two parts of the bot whose guarantees span many calls:

- **The recording path.** RTP packets are put back in order by a small window over 32-bit wrapping timestamps, laid
  out in a chunk file with silence for the gaps, written as Ogg pages, read back by an incremental demuxer or by an
  index that survives a cut file, and re-cut into one session mix with a plan that maps times into it.
- **The schedulers.** The Groq audio budget, the per-guild generation and playback workers, Fish's shared requests,
  the two-thread frame source, the circuit breaker, the phrase cache and the speech gate.

Files are byte sequences, samples integers, clocks reals. Objects the code updates in place are classes here, each
method proved against a function of the old state; the theorems are about those functions and about whole runs of
them. Workers and threads are state machines whose steps are what runs between two awaits or inside one lock, and
their theorems hold for every interleaving.

| file | what it models |
|---|---|
| Bytes, Reals, Bisect | little-endian integers, concatenation, min and max, Python's bisect |
| Crc | `ogg_crc` and the CRC of section 6 of RFC 3533 |
| OpusPacket | packet durations (sections 3.1 and 3.2 of RFC 6716) |
| FrameCache | the frame cache file |
| OggPage, OggWriter | pages, lacing, the page writer |
| OggDemuxer, OggRoundTrip, OggStreams | the incremental demuxer; what the writer prints it reads back; which byte strings it takes at all |
| OggFiles | whole files: which pages are written, which are refused, what is left on disk |
| OggIndex, OggCrash, OggScans | the packet index and `ogg_duration`; files cut or damaged anywhere; files of other writers |
| Reorder, Recorder, SenderClock | the reordering window; gaps, pieces and chunk files; a file against its sender's clock |
| Mix, Conservation, Recovery | `build_mix`; recorder to file to mix, closed or cut short by a crash |
| MixPlan, RecordedPlan, Rounding | positions in the mix; the plan of recorded chunks; packets of 2.5 ms |
| Budget, BudgetPace | `AudioBudget`: the audio limits; spacing, pauses and the ledger |
| SpeechGate | `SpeechGate` |
| Breaker, BreakerRuns | `CircuitBreaker`: probes, backoff and restarts; when it opens and for how long |
| PhraseCache | `TTSPhraseCache` |
| Session, SessionRuns | one guild's workers and `cancel_all`; what becomes of every job |
| Flights | Fish's in-flight sharing |
| AudioSource | `ContinuousTTSAudioSource` |

Where the code does less than one would expect, the model keeps the code, and a theorem says exactly when it does more:

- `Reorder.TwoInOrderIff`: two packets of one burst come out in the order of their times if and only if they are less
  than half the clock apart. The burst condition of `Reorder.WindowSorts` is sufficient, not necessary.
- `Reorder.AllSurviveIff`: a packet is dropped not only when more than eight later ones came before it, but also when
  the idle check emptied the window in the middle of the burst and a later one was already there.
- `Budget.DaysKeptIff`: the daily limit holds of the audio billed, in every run and under any limits, if and only if no
  amount rounds down when it is booked; otherwise a day exceeds it by half a millisecond an earlier amount at most
  (`Budget.LimitsKept`). Lengths in whole milliseconds, which is what the worker sends, never round
  (`Budget.WholeMsExact`). `Budget.LevelKeptIff` says the same of the bucket and rounding up.
- `SpeechGates.MarginIff`: for which settings an opening lasts its margin in every run. The defaults are among them
  (`SpeechGates.DefaultMargin`).
- `PhraseCache.CountRightIff`: loading counts the bytes right if and only if no file with bytes is followed by another
  of its key. The excess stays through every store and lookup, and `PhraseCache.StoreSurvivesIff` says which entries
  then survive their own store.
- `Conservation.PieceOffsetExact`: packets of 2.5 ms can put a piece's offset half a millisecond past its first packet;
  exactly then (half milliseconds rounding up here) the lookup finds the next packet. `Rounding.HalfMisses` is a
  chunk where it does, and where the original's rounding does too. No packet is lost from the mix by it.
- `MixPlan.BuiltPlanOkIff`: such packets and a gap under 20 ms can make two pieces of a plan overlap by a millisecond,
  and a position step back by as much as the clock goes on (`Rounding.StepsBack`); by no more (`MixPlan.PositionMonotone`).
- `OggFiles.PageFitsIff`: a page of 50 packets is refused if and only if they hold more than 205 full segments of 255
  bytes. Every later write to that file is refused too, and it keeps the pages before (`OggFiles.WritePackets`).
- `Breaker.OpenAdmitsIff`: a retry time of exactly zero counts as none, so a breaker that awaits its check is then
  never due (`Breaker.ZeroRetryNeverAdmits`). It takes a snapshot or a clock dated near zero.
- `AudioSource.OnlyLateClearBreaks`: a `clear` that ends between a read's take and its count, and nothing else, puts the
  counter off; `AudioSource.EarlyDrain` is a run where the drained event then comes a frame early.
- `BudgetPace.SendsApart`: the spacing of requests and the pauses after errors hold between two sends if the program was
  not restarted in between; a restart keeps the ledger and forgets both.
- `MixPlan.PositionsAgree`: the wall clock gives a later place than the file offset when a later-sorted piece had
  already begun.

## Model

| member | source | states |
|---|---|---|
| Crc.OggCrcIsRfc3533 | ttsbot/recording/ogg.py:22-33 | For every byte string the reflected, table-driven CRC over bit-reversed bytes is the MSB-first, zero-init CRC with polynomial 0x04C11DB7 |
| Crc.CrcFits | ttsbot/recording/ogg.py:25-33 | The checksum fits the page's four-byte field |
| Crc.BurstDetected | ttsbot/recording/ogg.py:25-33 | Two byte strings that differ only within four consecutive bytes have different CRCs |
| OpusPacket.FrameSamplesMatchTable | ttsbot/ogg_opus.py:22-48 | The bit arithmetic on the TOC byte gives the standard's frame length for all 32 configurations |
| OpusPacket.PlayableBounds | ttsbot/ogg_opus.py:22-48 | An accepted packet lasts 2.5 to 120 ms in steps of 2.5 ms and has 1 to 1275 bytes |
| OpusPacket.PlayableIff | ttsbot/ogg_opus.py:22-48 | A packet is accepted exactly when its one, two or counted frames last at most 120 ms, and then it lasts as long as they do |
| OpusPacket.DiscordFrameIff | ttsbot/ogg_opus.py:22-54 | A Discord frame is exactly a packet of up to 1275 bytes whose frames last 20 ms together |
| FrameCache.WriteFrame | ttsbot/ogg_opus.py:130-133 | Writes exactly the 20 ms packets, each after two bytes of length, and refuses every other one |
| FrameCache.ReadFrameCache | ttsbot/ogg_opus.py:136-151 | Succeeds exactly on the files that are the marker and one or more written frames, and returns those; before an error it yields only what the file begins with |
| FrameCache.DecodesWritten | ttsbot/ogg_opus.py:130-151 | Reading what was written gives the same frames |
| FrameCache.DecodedIsPrefix | ttsbot/ogg_opus.py:136-151 | What is yielded is always a written prefix of the file, and all of it exactly when there is no error |
| FrameCache.DecodesUpToBad | ttsbot/ogg_opus.py:136-151 | Every frame before the first bad record is yielded, and then it fails |
| OggPage.LaceRoundTrip | ttsbot/recording/ogg.py:80-95 | Cutting a page body by its segment table gives back the packets, for every list of packets (sizes that are multiples of 255 too) |
| OggPage.PageFields | ttsbot/recording/ogg.py:80-95 | Every field of a written page is where the reader looks, whatever follows the page |
| OggPage.WrittenPageChecks | ttsbot/recording/ogg.py:80-95 | A written page passes its own checksum |
| OggPage.DamagedPageFails | ttsbot/recording/ogg.py:80-95 | Damage within four bytes outside the checksum field never passes |
| OggDemuxer.OggOpusDemuxer.TakeSegments | ttsbot/ogg_opus.py:93-118 | The nested loops over one page's segments equal the page's packets added to the open one |
| OggDemuxer.OggOpusDemuxer.ReadPage | ttsbot/ogg_opus.py:72-122 | One page: same checks, packets and next state as the reference step |
| OggDemuxer.OggOpusDemuxer.Feed | ttsbot/ogg_opus.py:69-123 | The new state and packets are those of draining every complete page |
| OggDemuxer.OggOpusDemuxer.Finish | ttsbot/ogg_opus.py:125-127 | Accepts exactly when the stream ended cleanly |
| OggDemuxer.DrainThenConsume | ttsbot/ogg_opus.py:69-123 | Draining and then adding bytes is adding the bytes first |
| OggDemuxer.ConsumeAllIsOnce | ttsbot/ogg_opus.py:69-123 | Feeding chunks one by one is feeding their concatenation at once |
| OggDemuxer.ChunkingUnobservable | ttsbot/ogg_opus.py:69-123 | Any two ways of cutting the same bytes are both rejected, or give the same packets and final state |
| OggStreams.StreamAcceptedIff | ttsbot/ogg_opus.py:69-127 | For any pages in any chunks: read to the end with exactly this audio if and only if they are one stream (marker, version, first and last flags, one serial, sequence rising by one modulo 2^32, continuation flag exactly inside a packet) of an "OpusHead" of one or two channels, an "OpusTags" and one or more 20 ms packets, cut over the pages at any segments |
| OggStreams.AcceptedIsStream | ttsbot/ogg_opus.py:69-127 | For any byte string: it is read to the end if and only if it is the pages of such a stream |
| OggStreams.OutputIsPrompt | ttsbot/ogg_opus.py:69-123 | While a stream still comes in, in any chunks, every packet that ends on a page received whole has been handed out |
| OggWriter.SegmentTable | ttsbot/recording/ogg.py:81-84 | The loop builds the lacing of the packets |
| OggWriter.HeadersAreRfc7845 | ttsbot/recording/ogg.py:49-53 | The two header packets field by field |
| OggWriter.OggOpusWriter.constructor | ttsbot/recording/ogg.py:41-53 | The file is the two header pages and the writer is healthy |
| OggWriter.OggOpusWriter.WritePage | ttsbot/recording/ogg.py:80-95 | The file grows by exactly that page, or is untouched when the page cannot be written |
| OggWriter.OggOpusWriter.Flush | ttsbot/recording/ogg.py:76-78 | The waiting packets become one page with the granule of all samples so far |
| OggWriter.OggOpusWriter.Write | ttsbot/recording/ogg.py:59-63 | What was sent grows by the packet, a page of 50 goes to disk, fewer than 50 wait |
| OggWriter.OggOpusWriter.WriteSilence | ttsbot/recording/ogg.py:65-68 | Adds the whole 20 ms silence packets that fit the amount, or the first of them up to a refused page |
| OggWriter.OggOpusWriter.Close | ttsbot/recording/ogg.py:70-74 | Ends the stream with what waits, or one silence packet; refused exactly when the page is |
| OggWriter.GranuleIsTotal | ttsbot/recording/ogg.py:76-95 | The granule of the last page is the duration of all audio packets before its end |
| OggWriter.StreamAppend | ttsbot/recording/ogg.py:76-95 | One more page keeps a stream well formed |
| OggRoundTrip.ClosedStreamReads | ttsbot/ogg_opus.py:69-127 | A written stream in any chunks: exactly its audio when all packets are 20 ms, otherwise rejected |
| OggRoundTrip.ClosedStreamReadsBack | ttsbot/ogg_opus.py:69-127 | However a closed file is cut, the demuxer returns its packets and accepts the end |
| OggFiles.ShortAreWritten | ttsbot/recording/ogg.py:59-95 | With packets under 1275 bytes no page is refused, full or last |
| OggFiles.WriteStream | ttsbot/recording/ogg.py:59-95 | Writing any list of packets and closing: true exactly when no page is refused, and then the file is a finished one of exactly them, plus one silence packet when the count is a multiple of 50; otherwise it keeps the pages before the refusal. With 20 ms packets every cut of a finished file reads back |
| OggFiles.WritePackets | ttsbot/recording/ogg.py:59-95 | Write after write, refused or not: on disk are exactly the full pages before the first refused one, everything after waits |
| OggFiles.PageFitsIff | ttsbot/recording/ogg.py:80-86 | A full page is refused if and only if its packets hold more than 205 full segments |
| OggFiles.StaysRefused | ttsbot/recording/ogg.py:59-86 | After a refused page every later write is refused |
| OggIndex.OggDuration | ttsbot/recording/ogg.py:98-113 | The loop over pages computes the last complete page's granule |
| OggIndex.OggPacketIndex.Add | ttsbot/recording/ogg.py:176-233 | The arrays grow by one packet that reads back at its place and time |
| OggIndex.OggPacketIndex.TakePage | ttsbot/recording/ogg.py:176-233 | The segments of one page add exactly its packets, counted headers left out |
| OggIndex.OggPacketIndex.Scan | ttsbot/recording/ogg.py:126-141 | The scan finds the packets, start samples and damage of the reference scan, and refuses a file without both headers |
| OggIndex.OggPacketIndex.Packet | ttsbot/recording/ogg.py:156-161 | Packet i read back through the index is packet i |
| OggIndex.OggPacketIndex.IndexAt | ttsbot/recording/ogg.py:167-169 | The binary search from a time, rounded to samples, finds the first packet that starts at or after it |
| OggIndex.SampleOfMs | ttsbot/recording/ogg.py:167-169 | A time in whole milliseconds is its sample exactly |
| OggIndex.FirstAtFinds | ttsbot/recording/ogg.py:163-169 | It is the first packet that starts at or after the sample |
| OggIndex.FirstAtExact | ttsbot/recording/ogg.py:163-169 | The start of a packet finds that packet |
| OggIndex.FirstAtBetween | ttsbot/recording/ogg.py:167-169 | Every sample between two starts finds the later packet |
| OggCrash.ScanWrittenPages | ttsbot/recording/ogg.py:176-233 | Whole pages followed by anything unsound are recovered exactly |
| OggCrash.CrashPrefix | ttsbot/recording/ogg.py:98-113 | For every prefix of a written file: with both headers, exactly the packets of the whole pages, damage exactly when the cut is inside a page, and agreement with `ogg_duration`; with less it is refused |
| OggCrash.DamagedPageNotSound | ttsbot/recording/ogg.py:176-233 | A page damaged within four bytes anywhere but its segment table is refused |
| OggCrash.DamageStopsIndex | ttsbot/recording/ogg.py:176-233 | The index keeps everything before such a page, nothing from it on, and reports damage |
| OggScans.ScanFindsWhole | ttsbot/recording/ogg.py:176-233 | Of any pages with right checksums, packets continued over pages included, the index finds every whole packet that is not empty, after two Opus headers, up to whatever is damaged; without the headers it refuses the file |
| OggScans.ScanNeedsHeaders | ttsbot/recording/ogg.py:126-141 | Pages with fewer than two packets are refused |
| OggScans.DurationIsLargest | ttsbot/recording/ogg.py:98-113 | `ogg_duration` is the largest granule position of the whole pages at the front of the file |
| Reorder.Track.HoldPacket | ttsbot/recording/recorder.py:247-259 | The in-place insertion or drop is the window's reference step |
| Reorder.Track.ReleasePackets | ttsbot/recording/recorder.py:261-266 | The first packets of the window move on in order |
| Reorder.Track.HandlePacket | ttsbot/recording/recorder.py:229-245 | One arrival, with the flush after a sender pause |
| Reorder.Track.CloseIdle | ttsbot/recording/recorder.py:345-348 | The idle check empties the window and keeps the clock context |
| Reorder.SubmittedIsAccounted | ttsbot/recording/recorder.py:229-266 | For any arrivals (pauses, idle flushes anywhere, wraps, duplicates): submitted = let through + dropped + held, at most eight held, nothing invented |
| Reorder.DroppedStays | ttsbot/recording/recorder.py:247-259 | A timestamp once dropped is overtaken for good |
| Reorder.WindowSorts | ttsbot/recording/recorder.py:247-266 | For any arrival order of a burst within 2^31 ticks, with idle flushes anywhere, the window and final flush let through exactly the survivors' first copies, strictly by time, and count the rest as late |
| Reorder.AllSurviveIff | ttsbot/recording/recorder.py:247-266 | Every distinct packet survives if and only if none has more than eight later ones before it, or a later one before the last idle flush |
| Reorder.PauseStartsBurst | ttsbot/recording/recorder.py:229-245 | Without a pause an arrival is a burst step; after one the window is emptied first and the clock forgotten |
| Reorder.BurstsInARow | ttsbot/recording/recorder.py:229-266 | Over a whole stream of bursts with a pause before each, the packets let through are each burst's sorted survivors, one burst after another |
| Reorder.BurstFollows | ttsbot/recording/recorder.py:229-245 | After a pause the handler is the window started empty, after everything held before |
| Reorder.TwoInOrderIff | ttsbot/recording/recorder.py:66-69 | Two packets come out in time order if and only if they are less than half the clock apart |
| Recorder.ExtendLaid | ttsbot/recording/recorder.py:290-343 | One more packet keeps the file's layout: packets in order, gaps filled by whole silence packets, pieces exactly where they must start |
| Recorder.ChunkTrack.Write | ttsbot/recording/recorder.py:290-326 | A stale packet is counted and dropped; any other is the next one of the log and the file stays laid out; a full chunk is closed where a piece begins |
| Recorder.ChunkTrack.WriteSilence | ttsbot/recording/recorder.py:313-319 | Adds the whole silence packets and nothing else |
| Recorder.ChunkTrack.CloseChunk | ttsbot/recording/recorder.py:352-376 | The closed chunk is the file laid out so far, with the times and counts of its manifest line |
| SenderClock.StaleIff | ttsbot/recording/recorder.py:296-305 | In timestamps and wall times, exactly which packets are dropped |
| SenderClock.BeginsIff | ttsbot/recording/recorder.py:296-309 | In timestamps, durations and wall times, exactly where a piece begins |
| SenderClock.SamePieceIff | ttsbot/recording/recorder.py:290-326 | Two packets share a piece exactly when none begins after the one and up to the other |
| SenderClock.StepOf | ttsbot/recording/recorder.py:306-320 | From one packet to the next the file goes on by the packet's duration and floor(hole / 20 ms) silence packets, the hole taken from the 32-bit timestamps; at a new piece by floor(pause / 20 ms) |
| SenderClock.FollowsSender | ttsbot/recording/recorder.py:290-326 | Over any part of a piece without overlaps the file is behind the sender's unwrapped clock by less than 20 ms a step, and not at all if and only if every hole was whole packets |
| Recorder.RoundsToNearest | ttsbot/recording/recorder.py:313-343 | Offsets and wall times are the nearest milliseconds |
| Mix.BuildMix | ttsbot/archive/mix.py:135-211 | The nested loops produce the mix and plan of the sorted pieces, and list the files without audio and the damaged ones |
| Mix.SortOrdered | ttsbot/archive/mix.py:142-153 | Pieces are placed in wall-clock order |
| Mix.SortPlaces | ttsbot/archive/mix.py:142-153 | Every piece is placed once, by wall time, then user, file and offset |
| Mix.PiecesShare | ttsbot/archive/mix.py:145-183 | A packet of a file is copied by exactly one of its pieces, unless cut as trailing silence |
| Mix.MixConserves | ttsbot/archive/mix.py:142-194 | Every playable non-silence packet of a readable file is in the mix exactly once, every other at most once, undecodable ones never |
| Conservation.MixIsLaidOut | ttsbot/archive/mix.py:161-183 | The mix is the pieces' spans and, between neighbours, exactly floor(gap/20 ms) silence packets |
| Conservation.MixInOrder | ttsbot/archive/mix.py:142-194 | The spans are in wall-clock order and do not overlap |
| Conservation.ItemsAreSourcePieces | ttsbot/archive/mix.py:142-153 | What is placed are the pieces of the files with audio, each with the offset of the next piece of its file |
| Conservation.PlanSays | ttsbot/archive/mix.py:161-183 | Each line of the plan has its piece's user, file and wall time, and in milliseconds where its span of the mix is and how long |
| Conservation.PlanExact | ttsbot/archive/mix.py:161-183 | Each piece of the plan starts one gap after the one before ends: to a millisecond always, exactly with whole-millisecond packets |
| Conservation.PieceOffsetExact | ttsbot/recording/recorder.py:328-343 | A piece's offset is where its first packet starts, to half a millisecond; looking it up finds that packet unless it was rounded past its start, then the next one |
| Conservation.ClosedFileIndexed | ttsbot/recording/ogg.py:176-233 | The index of a finished file finds exactly the packets written, undamaged |
| Conservation.WriteChunk | ttsbot/recording/recorder.py:352-376 | Writing a chunk and closing it gives a file whose index finds exactly its packets, unless a page is refused (exactly when, and what is kept then); short packets never are |
| Conservation.HeardIsMixedOnce | ttsbot/archive/mix.py:142-194 | Recorder to file to mix: each packet that was heard and is not the silence packet is in the mix exactly once |
| Recovery.CutFileIndexed | ttsbot/recording/ogg.py:176-233 | Of a file cut at any byte the index keeps exactly the packets of the whole pages |
| Recovery.RecoveredIsMixedOnce | ttsbot/recording/recorder.py:410-446 | After a crash each packet heard that is not the silence packet is in the mix exactly once if its page was whole on disk, and not at all otherwise |
| Recovery.OpenFileCut | ttsbot/recording/recorder.py:410-446 | Every cut of an open chunk that the index can read at all is such a file |
| Recovery.WriteOpenChunk | ttsbot/recording/recorder.py:290-326 | What an open chunk has on disk is whole pages of its packets, the first ones |
| MixPlan.BuiltPlanOk | ttsbot/archive/mix.py:135-194 | Every plan `build_mix` makes is in wall-clock order with disjoint pieces, but for a millisecond where there is no gap and packets of 2.5 ms |
| MixPlan.BuiltPlanOkIff | ttsbot/archive/mix.py:135-194 | Exactly which mixes have such a plan: a gap of one packet, or no piece whose start and length both round up against the next |
| MixPlan.PositionIsLinear | ttsbot/archive/mix.py:98-111 | `position_at` agrees with a linear scan on every plan in wall-clock order |
| MixPlan.BuiltPositionIsLinear | ttsbot/archive/mix.py:98-111 | So it does on every plan `build_mix` makes |
| MixPlan.PositionMonotone | ttsbot/archive/mix.py:98-111 | It is monotone in wall time, overlapping speech included, and stays inside the mix; by at most the millisecond a plan may be off |
| MixPlan.InsidePosition | ttsbot/archive/mix.py:72-88 | `position_in_file` of an offset inside a piece is that far into the piece's place in the mix |
| MixPlan.PausePosition | ttsbot/archive/mix.py:72-88 | An offset in a pause the mix cut out is the start of the next piece of the file, or with `end` the end of the piece before it; after the last piece that end |
| MixPlan.BeforePosition | ttsbot/archive/mix.py:72-88 | An offset before the file's first piece is that piece's start |
| MixPlan.BookedWall | ttsbot/recording/transcript.py:33-38 | `wall_time` of an offset inside a piece is that far after the piece's wall time |
| MixPlan.WallBefore | ttsbot/recording/transcript.py:33-38 | Before the first piece `wall_time` is that piece's wall time |
| MixPlan.PositionsAgree | ttsbot/archive/mix.py:72-111 | Through the file and through the wall clock a moment has the same place when no later-sorted piece had begun; otherwise the wall clock's is never earlier (but for that millisecond), and later when the mix leaves a gap |
| RecordedPlan.PlanPieces | ttsbot/archive/mix.py:142-194 | Each piece of the plan from a recorded chunk is one of its pieces, at its offset and wall time, each at most once |
| RecordedPlan.RecordedPositionsAgree | ttsbot/archive/mix.py:72-111 | For plans made from recorded chunks, file offset and wall clock lead to the same place when no later-sorted piece had begun |
| Rounding.HalfMisses | ttsbot/recording/recorder.py:328-343 | A chunk whose second piece is looked up one packet late |
| Rounding.StepsBack | ttsbot/archive/mix.py:98-111 | A session whose plan overlaps and whose position steps back by a millisecond |
| MixPlan.SpanForward | ttsbot/archive/mix.py:90-96 | A span exists exactly for files in the mix and never ends before it starts |
| MixPlan.SegmentSpan | ttsbot/archive/mix.py:90-96 | A segment that begins in a piece and ends before the next one is that part of the piece, cut where the piece ends |
| Budget.AudioBudget.constructor | ttsbot/recording/groq.py:133-155 | Loads the readable entries of the last 24 hours and rewrites the ledger to them |
| Budget.AudioBudget.WindowWaitFor | ttsbot/recording/groq.py:180-189 | The loop over leaving entries computes the reference wait |
| Budget.AudioBudget.Wait | ttsbot/recording/groq.py:164-178 | The wait, or an error exactly for a file that never fits |
| Budget.AudioBudget.RecordSent | ttsbot/recording/groq.py:191-203 | Books and ledger grow by the same entry |
| Budget.AudioBudget.BlockFor | ttsbot/recording/groq.py:205-209 | Blocks, never shortening an earlier block |
| Budget.WindowWaitExact | ttsbot/recording/groq.py:180-189 | For a file within the limit the wait is sufficient, no shorter one is, and the fall-through return is never reached |
| Budget.BucketWaitExact | ttsbot/recording/groq.py:164-178 | The same for the refilling bucket |
| Budget.WaitIsLeast | ttsbot/recording/groq.py:164-189 | A moment is admissible if and only if it is at least `wait_for` later |
| Budget.WaitingShortens | ttsbot/recording/groq.py:164-189 | With no event in between, wait_for(s, now + d) = max(0, wait_for(s, now) - d) |
| Budget.RunStaysSafe | ttsbot/recording/groq.py:145-203 | In every run that sends after zero waits, restarts and trims included, each send fits beside what the last 24 hours booked, and the bucket level is off by one rounding at most |
| Budget.LimitsKept | ttsbot/recording/groq.py:145-203 | Every 24 hours bill within per_day if none of the earlier amounts rounds down, else within half a millisecond for each of them; the bucket level is within its limits, by one rounding up |
| Budget.DaysKeptIff | ttsbot/recording/groq.py:164-203 | For any set of amounts: every run under any limits keeps the daily limit if and only if none of them rounds down |
| Budget.LevelKeptIff | ttsbot/recording/groq.py:164-203 | Every run keeps the bucket's level within its limits if and only if none of the amounts rounds up |
| Budget.WholeMsExact | ttsbot/recording/groq.py:191-203 | An amount in whole milliseconds is booked as it is |
| Budget.BooksWholeMs | ttsbot/recording/groq.py:191-203 | What is booked is the whole number of milliseconds nearest to what was billed |
| BudgetPace.BlockWaits | ttsbot/recording/groq.py:164-209 | After a block at `now` the wait at t is at least now + seconds - t, and at least one spacing; otherwise it is what it was |
| BudgetPace.SendsApart | ttsbot/recording/groq.py:164-209 | In every run without a restart in between, a file is sent at least 60 / max(1, requests per minute) seconds after the last send or block, and not before a block ends |
| BudgetPace.NeverFitsIff | ttsbot/recording/groq.py:157-169 | Exactly which files are refused for good |
| BudgetPace.LevelFromResponse | ttsbot/recording/groq.py:171-203 | After a response with the bucket's level it is that level, refilled by the second up to the limit |
| BudgetPace.LevelBooked | ttsbot/recording/groq.py:171-203 | After one without, it is the refilled level less what was booked |
| BudgetPace.KeptAppend | ttsbot/recording/groq.py:145-155 | Loading keeps, line by line and in order, the readable entries of the last 24 hours |
| SpeechGates.SpeechGate.Feed | ttsbot/recording/vad.py:53-68 | When the gate opens the output is the newest packets since the last close or reset, at most preroll of them; while open the packet itself; else nothing. Over a run it is an in-order, duplicate-free selection; when the gate closes it has been open long enough |
| SpeechGates.SpeechGate.Reset | ttsbot/recording/vad.py:47-51 | Forgets the context and keeps what was returned |
| SpeechGates.KeptIff | ttsbot/recording/vad.py:47-68 | Over a run with resets anywhere a packet is kept if and only if the gate was open when it came, or it opened on one of the preroll packets from it on, with no close or reset in between |
| SpeechGates.WindowsDecide | ttsbot/recording/vad.py:53-68 | The gate opens on start_needed voiced packets of the last start_window since the last close or reset, and closes on stop_max or fewer of the last hangover |
| SpeechGates.OpenLongEnough | ttsbot/recording/vad.py:53-68 | An open gate keeps at least hangover - start_window + start_needed - stop_max further packets |
| SpeechGates.MarginIff | ttsbot/recording/vad.py:29-68 | In every run of the gate an opening lasts at least the margin, if and only if start_needed > stop_max, or the margin is at most one packet, or the gate can never open |
| SpeechGates.MarginHolds | ttsbot/recording/vad.py:53-68 | The lower bound over runs of the gate |
| SpeechGates.ClosesAtOnce | ttsbot/recording/vad.py:53-68 | For every setting where the counts overlap, a run that opens the gate and closes it one packet later |
| SpeechGates.DefaultMargin | ttsbot/recording/vad.py:29-36 | With the defaults every opening lasts nine packets or more |
| Breaker.CircuitBreaker.ReadRetryAt | ttsbot/health.py:206-217 | Reading retry_at restarts a pause dated in the future |
| Breaker.CircuitBreaker.Allow | ttsbot/health.py:236-258 | Admission and the state after it |
| Breaker.CircuitBreaker.Succeed | ttsbot/health.py:260-283 | The state after a success, confirmed or not |
| Breaker.CircuitBreaker.Fail | ttsbot/health.py:285-339 | The state after a failure of any kind |
| Breaker.CircuitBreaker.ReopenNow | ttsbot/health.py:341-353 | The state after a failed check |
| Breaker.CircuitBreaker.NextPause | ttsbot/health.py:367-374 | One backoff step |
| Breaker.CircuitBreaker.OpenUp | ttsbot/health.py:376-391 | Opening |
| Breaker.CircuitBreaker.RestoreFrom | ttsbot/health.py:421-455 | Restoring a snapshot |
| Breaker.PauseBounded | ttsbot/health.py:206-391 | In every reachable state, whatever the clock does, pause and remaining time are within max(max_cooldown, max_recheck) |
| Breaker.ProbesApart | ttsbot/health.py:236-258 | Two probes with no report between are more than the probe timeout apart |
| Breaker.OpenAdmitsIff | ttsbot/health.py:236-258 | Exactly when an open breaker lets a request through |
| Breaker.AdmittedInTime | ttsbot/health.py:236-258 | On a positive advancing clock a request is admitted after pause + check grace, or past the probe timeout when half-open |
| Breaker.PauseStands | ttsbot/health.py:206-258 | Asking does not move the end of a pause on an advancing clock |
| Breaker.AdmittedAfterQuiet | ttsbot/health.py:206-258 | However often it is asked in vain, an open breaker admits by its original time |
| Breaker.ZeroRetryNeverAdmits | ttsbot/health.py:249-250 | A retry time of zero counts as none and the check grace never runs out |
| Breaker.BackoffStep | ttsbot/health.py:307-374 | Which events back off, by how much, and what they do to the depth of every family |
| Breaker.DepthCounts | ttsbot/health.py:367-374 | The depth is the number of backoffs of the family so far |
| Breaker.NthPause | ttsbot/health.py:307-391 | The n-th backoff pause of a family since the last confirmed success is min(base * factor^n, cap), through restarts while not closed |
| Breaker.LateReplyNeverEarlier | ttsbot/health.py:285-339 | A late TRANSIENT or Retry-After reply while open never makes retry_at earlier |
| Breaker.RestoreKeepsPause | ttsbot/health.py:405-455 | Save and restore keep an open pause's end, kind and escalation |
| Breaker.RestoreEndsProbe | ttsbot/health.py:405-455 | A restart during a probe leaves an open breaker whose pause is over |
| BreakerRuns.OpensAtThreshold | ttsbot/health.py:285-339 | In every run from a closed breaker without a success: it is closed, counting and admitting, if and only if the failures counted are below the threshold (or none came), whatever single-request failures, questions and looks come between |
| BreakerRuns.CountsFromSuccess | ttsbot/health.py:260-339 | After any history and a success it is closed for fewer than max(1, threshold) failures, counted from 0 |
| BreakerRuns.ThresholdPause | ttsbot/health.py:333-339 | The failure that reaches the threshold pauses from then on for min(max(cooldown * factor^depth, 0), cap) |
| BreakerRuns.ResetTimePauses | ttsbot/health.py:314-332 | A quota or key failure whose reset time is 30 s off or more pauses at once for min(until - now, max_recheck) |
| BreakerRuns.RecheckPauses | ttsbot/health.py:314-332 | Any other one pauses at once for the backed off recheck time or base, within 0 and max_recheck |
| BreakerRuns.RetryAfterPauses | ttsbot/health.py:307-313 | A Retry-After pauses a breaker that is not open for min(retry_after, max_recheck); an open one pauses until the later of the two ends |
| BreakerRuns.WaitsForCheckIff | ttsbot/health.py:197-391 | Which events pause the breaker anew, always without a probe; it waits for a check if and only if it was told to and has not paused, succeeded or restarted closed since |
| BreakerRuns.DoubtedIff | ttsbot/health.py:271-321 | Since a check closed the breaker, the check is doubted if and only if a quota or key failure came |
| BreakerRuns.NeverDoubted | ttsbot/health.py:271-321 | Since a request succeeded it is not, whatever fails |
| BreakerRuns.DownIff | ttsbot/health.py:260-391 | In every run of a new breaker it is down since some time exactly while it is not closed |
| BreakerRuns.DownSinceOpening | ttsbot/health.py:376-385 | That time is when it opened, through everything until it closes again |
| PhraseCache.TTSPhraseCache.EvictToFit | ttsbot/providers.py:283-301 | The loop drops what the reference drops and keeps the byte count right |
| PhraseCache.TTSPhraseCache.Register | ttsbot/providers.py:401-419 | The index is the reference LRU list after a store; tables match, the excess of the byte total is unchanged, caps hold |
| PhraseCache.TTSPhraseCache.LookupKey | ttsbot/providers.py:312-340 | The same for a lookup, with the entry whose file vanished dropped |
| PhraseCache.TTSPhraseCache.LoadExisting | ttsbot/providers.py:211-244 | The index after loading, and by exactly how much the byte total is too high |
| PhraseCache.EvictShortest | ttsbot/providers.py:283-301 | Eviction removes the shortest least-recently-used prefix that restores the caps |
| PhraseCache.StoreHolds | ttsbot/providers.py:401-419 | A store keeps keys distinct and both caps |
| PhraseCache.LookupHolds | ttsbot/providers.py:312-340 | So does a lookup |
| PhraseCache.LookupMoves | ttsbot/providers.py:312-340 | A lookup hits if and only if the key is stored and its file exists; then that entry is the newest and all others are unmoved; a vanished file takes only its own entry away |
| PhraseCache.StoreMoves | ttsbot/providers.py:401-419 | A store makes its entry the newest, replaces the one of its key and drops only from the oldest end; an oversized one changes nothing |
| PhraseCache.StoreSurvivesIff | ttsbot/providers.py:401-419 | An entry survives its own store, as the newest, if and only if it fits beside the excess |
| PhraseCache.CountRightIff | ttsbot/providers.py:211-244 | Loading counts right if and only if no file with bytes is followed by another of its key |
| PhraseCache.LoadedFind | ttsbot/providers.py:211-244 | For each key loading keeps the size of its last file |
| PhraseCache.LoadedOrder | ttsbot/providers.py:211-244 | Loading keeps the keys in the order in which their first files were found |
| PhraseCache.NothingShadowed | ttsbot/providers.py:211-244 | With one file a key the index is the files, oldest first |
| PhraseCache.ShadowedOverCounts | ttsbot/providers.py:211-244 | With two files of one key an entry within the cap is thrown out |
| Session.StepSound | ttsbot/pipeline.py:490-531 | Every step of the workers and tasks, cancellations and disconnects included, keeps the queue order, the active set and the player's place |
| Session.PlayedGrouped | ttsbot/playback.py:49-116 | In every run batches reach the player grouped by job, in queue order, never interleaved |
| Session.EndedPlayedWhole | ttsbot/playback.py:80-116 | A job that ends neither cancelled nor skipped was played whole, in one block |
| SessionRuns.SmoothRun | ttsbot/playback.py:49-116 | In every run without cancellation, lost voice or stopped player: the log is the batches of the jobs that ended, all of them, job by job from the first, then those taken of the one playing; the rest is in line in its turn |
| SessionRuns.NothingLost | ttsbot/playback.py:49-116 | In every run each job submitted is still in line, was struck (cancelled while active, dropped from the queue, or skipped for want of voice), or was played whole; one not struck is never drained |
| SessionRuns.CancelledIff | ttsbot/playback.py:54-116 | A job is cancelled if and only if a step of the run cancelled it: cancel_all or a disconnect while it was active, a failure while it was playing, or a stopped player |
| SessionRuns.CanFinish | ttsbot/pipeline.py:490-531 | From every state the workers alone can empty the line |
| SessionRuns.AllCanBePlayed | ttsbot/playback.py:49-116 | After any run the workers alone can bring every job not struck to be played whole |
| SessionRuns.CanPrefetch | ttsbot/pipeline.py:490-531 | As many jobs as the window holds can be in generation at once before any plays |
| Session.ActiveBounded | ttsbot/pipeline.py:490-531 | In every run at most lookahead + 2 items are active |
| Session.CancelAllIsFinal | ttsbot/session.py:53-67 | After cancel_all no batch of a job submitted before it is ever played again |
| Session.GuildSession.CancelAll | ttsbot/session.py:53-67 | Empties the queue, flags every active item and returns how many jobs that dropped |
| Flights.StepSound | ttsbot/fish.py:243-282 | Every step keeps table, listener counts and what listeners have seen consistent |
| Flights.TabledIffHeld | ttsbot/fish.py:243-282 | In every run a flight is in the table exactly while it has listeners |
| Flights.OneProducer | ttsbot/fish.py:243-282 | A producer that runs and was not told to stop is the one tabled for its key |
| Flights.StoppedUnheard | ttsbot/fish.py:273-282 | A producer is told to stop only when every listener has left, and nobody joins it afterwards |
| Flights.NormalEndSawAll | ttsbot/fish.py:174-282 | A normal end means all chunks were seen, at least one, none empty |
| Flights.SameStream | ttsbot/fish.py:254-272 | Listeners of one flight, late joiners too, read the same chunks in order from the first |
| Flights.SharesFlight | ttsbot/fish.py:248-256 | Listeners of one key at the same time share one flight |
| Flights.NeverStranded | ttsbot/fish.py:174-282 | A waiting listener can go on, or its producer is alive and can |
| Flights.FlightIsItsSteps | ttsbot/fish.py:174-225 | In every run a flight's chunks are the non-empty payloads that came for it, in order; its error is the one it failed with, or that it ended without audio; it is done exactly when that was said |
| Flights.HeardIsItsSteps | ttsbot/fish.py:243-282 | The i-th listener hears the first payloads of its flight, one for each of its reads; unless it gave up it ends after all of them, with the flight's error if there is one |
| AudioSource.DrainedIsExact | ttsbot/audio.py:168-230 | With no clear ending inside a read, pending = queued + announced-not-put + taken-not-counted (+ a running clear's drops), and drained means none is left |
| AudioSource.OnlyLateClearBreaks | ttsbot/audio.py:168-230 | A step makes an exact counter wrong if and only if it is such a clear |
| AudioSource.DrainedNeverMissing | ttsbot/audio.py:168-230 | In every run the event is set when no frame is left, and comes at most one frame early |
| AudioSource.EarlyDrain | ttsbot/audio.py:168-230 | A run with such a clear in which the event is set while a frame waits |
| AudioSource.PlayOrder | ttsbot/audio.py:168-230 | Play order is enqueue order, each frame at most once, none lost but by clear |
| AudioSource.PlayedIsPrefix | ttsbot/audio.py:168-230 | Where nothing was dropped the frames played are the first ones enqueued |
| AudioSource.ContinuousTTSAudioSource.EnqueueFrames | ttsbot/audio.py:203-214 | All of a batch or, if one frame is refused, none of it |
| AudioSource.ContinuousTTSAudioSource.Read | ttsbot/audio.py:168-185 | The next frame, or the idle frame |
| AudioSource.ContinuousTTSAudioSource.Clear | ttsbot/audio.py:216-230 | Drops every queued frame, counts them, and sets drained |
| AudioSource.ContinuousTTSAudioSource.Stop | ttsbot/audio.py:235-237 | Stopped and drained |

## Left out

- Files, sockets, ffmpeg, libopus, the WebRTC decision, Discord, encryption and the web archive: a verdict, a file's bytes or a reply is a parameter.
- Reorder.BurstsInARow: the recorder's thread, queue and per-user tracks are one track; its packets, sender pauses and idle checks come in any order.
- Recorder.ChunkTrack.Write: the open chunk is its packet list; what its file keeps when a page is refused is OggFiles.WritePackets, but the recorder's own fields after the exception (the gap before the next packet, the manifest line that is not written) are not followed.
- Recorder.ChunkTrack.CloseChunk: file names, sizes and the close reason are left out; an idle close is a CloseChunk at any time.
- Conservation.PieceOffsetExact: half milliseconds round up here, where the original rounds the nearest binary fraction.
- Mix.BuildMix: opening files is a parameter; the mix is its packet list, and damage to a file is whatever the index recovered of it.
- MixPlan.PositionsAgree: positions are rounded from reals, not binary floating point.
- RecordedPlan.RecordedPositionsAgree: stated for chunks of whole-millisecond packets (the session's other files may hold any), and for moments before the chunk's next piece starts.
- RecordedPlan.PlanPieces: the same; a piece looked up one packet late has another start in the plan than in its chunk's books.
- Recovery.RecoveredIsMixedOnce: a sidecar that is itself cut short is not modelled.
- Budget.AudioBudget.RecordSent: the ledger is a list of entries, not JSON lines; one that cannot be read is a None.
- Budget.LimitsKept: real numbers, so only the code's own rounding to milliseconds is counted, with halves rounded up.
- Breaker.CircuitBreaker.Fail: log lines, error texts and change callbacks are left out, and the clock is read once per call.
- Breaker.PauseBounded: `trip` opens for exactly the time it is given and is not among the events.
- Breaker.NthPause: a restart while closed forgets the depth, as in the code, and is not among the events counted.
- Breaker.CircuitBreaker.RestoreFrom: parsing of malformed snapshots is left out; a snapshot has well-typed fields.
- The classification of exceptions and the dispatcher that drives breakers: the breaker theorems hold for every sequence of events, so for theirs too.
- PhraseCache.TTSPhraseCache.Register: keys are numbers, and unlinking files is left out; an oversized file that replaces a cached one leaves the old entry, as in the code.
- PhraseCache.TTSPhraseCache.LoadExisting: suffix checks and removal of partial files are left out.
- Session.PlayedGrouped: timeouts, voice connections and the stopped player are choices a step may take; what a generation task puts into its channel is abstract.
- Flights.StepSound: `aclose`, and tasks cancelled from outside, are left out; a chunk that arrives after a stop request is allowed, which only adds runs.
- AudioSource.PlayOrder: frames are numbers, and the source is not stopped.
- AudioSource.ContinuousTTSAudioSource.Read: encoding PCM to Opus is left out.
