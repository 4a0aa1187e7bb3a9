# E3 audio core in Dafny

This project models two parts of the E3 audio libraries (libaudio and libcommon).

The first part is the MP3 reading pipeline built around libmad. It exists twice:
`MadDecoder` streams from a file that is already open, and `MpegFile` is the `AudioFile`
for MPEG audio. Both do the following:

- size ID3v1 and ID3v2 tags (`Id3`) so they can be skipped;
- read the frame count of a Xing header (`Xing`);
- refill an input byte window, carrying the unconsumed tail to the front (`MadStream`);
- synchronise on the first frame;
- clamp libmad's fixed-point samples to `[-MAD_F_ONE, MAD_F_ONE - 1]` and write them
  interleaved;
- estimate the playing time with a Xing shortcut, a variable-bit-rate flag, a 25-frame
  cutoff and one-time de-padding (`DurationScan`).

libmad itself is an abstract `Engine` (`MadEngine`). Its frame decoder, header decoder and
resynchroniser are functions the caller supplies. They return an error code, new stream
positions, a header, a block of integer samples and the ancillary bits.

The second part is the in-house containers and small algorithms:

- the two growable `Buffer` templates (`Buffers`, `E3Buffers`, both specified by `BufferSpec`);
- the `RecordBuffer` ring buffer with its four overflow policies;
- `PreallocatedQueue`, a stack that can grow itself;
- `EnumMapper` and `EnumNames`;
- `AudioBuffer`'s frame cursor;
- the instrument chunk of `AudioFile`;
- `clip`, `BoundedRange` and `BoundedValue`;
- the byte swaps and `Combine14Bits`;
- `IntToString`, `Tokenize` and `RandomString`;
- the format and codec registry of `FormatManager`;
- the best-sample-rate search of `AudioDevice`;
- the device lookups of `AudioBridge`.

State the source changes in place is modelled as classes whose methods are specified by
functions on values. For example, `RecordBuffer.Push` ensures
`Current() == Pushed(old(Current()), policy, value, blank)`. The properties the source
promises are then proved about those functions: FIFO order, round trips, first-match
lookups, and bijectivity.

Sample values are kept as the clamped fixed-point integers. File access is a `Source` value:
a byte sequence, a read position, and a flag that makes every read fail.

## Model

| member | source | states |
|---|---|---|
| Id3.GetId3TagSize | libaudio/src/MadDecoder.cpp:373-397 | the tag size is 128 for a window starting "TAG", otherwise the declared ID3v2 size grown over trailing zero bytes, otherwise 0 (`TagSize`) |
| Id3.PaddedEnd | libaudio/src/MadDecoder.cpp:393 | the padding loop never shrinks the size and stops inside the window once it has moved |
| Id3.PaddedEndIsRun | libaudio/src/MpegFile.cpp:510 | every byte the padding loop passes is zero, and it stops at a non-zero byte or at the window end |
| Id3.Id3v1Wins | libaudio/src/MadDecoder.cpp:376-379 | three bytes "TAG" give 128 even when an ID3v2 header would also match, since that test comes first |
| Id3.NoTag | libaudio/src/MpegFile.cpp:490-514 | a window that is neither tag gives 0, and a window shorter than 3 bytes always gives 0 |
| Id3.Id3v2Size | libaudio/src/MpegFile.cpp:499-512 | an ID3v2 match gives at least the declared size, which is at least 10, or at least 20 with the footer flag; the bytes past the declared size are zero; a result inside the window points at a non-zero byte |
| Id3.SynchsafeShifts | libaudio/src/MadDecoder.cpp:390 | the size bytes 6 to 9 are combined with shifts of 21, 14, 7 and 0 into a value below 2^28 |
| Id3.EncodeSynchsafe | libaudio/src/MadDecoder.cpp:385 | a size below 2^28 is written as four bytes below 0x80, the condition the header test imposes |
| Id3.SynchsafeRoundTrip | libaudio/src/MadDecoder.cpp:390 | decoding the four encoded bytes gives the size back |
| Xing.MagicSpellsXing | libaudio/src/MadDecoder.cpp:403 | the magic word is the big-endian reading of the characters 'X' 'i' 'n' 'g' |
| Xing.XingHeaderRead | libaudio/src/MadDecoder.cpp:401-409 | ancillary bits holding "Xing", a flag word and a count word yield the count when the flag word is odd and 0 when it is even |
| Xing.NoMagicNoCount | libaudio/src/MpegFile.cpp:518-526 | fewer than 96 bits, or a first word that is not the magic, yields 0 |
| Xing.CountFits | libaudio/src/MpegFile.cpp:522-523 | the frame count is always a 32-bit value |
| MadEngine.Clamp | libaudio/src/MadDecoder.cpp:281-284 | a clamped sample lies in `[-MAD_F_ONE, MAD_F_ONE - 1]`, and a sample already there is unchanged |
| MadEngine.ClampIsNearest | libaudio/src/MpegFile.cpp:363-367 | no value in the range is closer to the sample than its clamped value |
| MadEngine.ClampMonotone | libaudio/src/MpegFile.cpp:363-367 | clamping keeps the order of samples |
| MadEngine.ChannelCount | libaudio/src/MpegFile.cpp:116-126 | the channel modes 0 to 3 give a count, 1 exactly for single channel and 2 for the others; any other mode gives none |
| MadEngine.Width | libaudio/src/MadDecoder.cpp:104-117 | the channel count decode uses for a header is its mode's count, at most 2 |
| MadEngine.Widths | libaudio/src/MadDecoder.cpp:272 | the channel counts of the decoded headers, one per header and in order |
| MadStream.ReadCount | libaudio/src/MadDecoder.cpp:246 | fread delivers at most what it was asked for and what is left, and when it delivers less it delivers everything that is left |
| MadStream.ReadKeepsOrder | libaudio/src/MpegFile.cpp:325-328 | the bytes read, followed by the bytes left afterwards, are the bytes that were left before |
| MadStream.MoveToFront | libaudio/src/MadDecoder.cpp:243-244 | memmove puts the unconsumed tail at the front and touches nothing past it |
| MadStream.ReadInto | libaudio/src/MadDecoder.cpp:246 | fread stores exactly the bytes it took from the source at the requested offset and nothing else changes |
| MadStream.Refill | libaudio/src/MpegFile.cpp:325-328 | the read count and file position are those of fread for the free space behind the tail, and the new window is `Refilled` of the old one |
| MadStream.RefilledLayout | libaudio/src/MpegFile.cpp:325-328 | a refilled window starts with the old tail bufend - next_frame, followed by the bytes read, and both fit in the buffer |
| MadStream.RefillKeepsPending | libaudio/src/MadDecoder.cpp:243-253 | after a refill and mad_stream_buffer over the tail plus the bytes read, the pending input (unconsumed window, then the rest of the file) is what it was before, so no byte is lost, repeated or reordered |
| MadStream.ConsumeTag | libaudio/src/MadDecoder.cpp:349-362 | a tag is skipped exactly when its size is positive, and the stream is resynchronised in every case |
| MadStream.Channels | libaudio/src/MadDecoder.cpp:278-291 | one frame position yields one value per channel |
| MadStream.Interleaved | libaudio/src/MadDecoder.cpp:276-293 | a run of frames yields frames times channels values |
| MadStream.InterleavedAt | libaudio/src/MadDecoder.cpp:276-293 | output value k is the clamped sample of channel k mod nch at frame position from + k div nch |
| MadStream.InterleavedInRange | libaudio/src/MpegFile.cpp:359-381 | every interleaved value lies in the clamp range |
| MadStream.ExtractFrames | libaudio/src/MpegFile.cpp:359-381 | the output slice at the given offset receives exactly the interleaved clamped samples, and every other element keeps its value |
| MadStream.StoreChannels | libaudio/src/MadDecoder.cpp:278-291 | the channel loop stores the clamped sample of each channel for one frame position at consecutive indices and changes nothing else |
| MadStream.SplicedAt | libaudio/src/MadDecoder.cpp:287-290 | writing a run of values from an index changes exactly that range, to those values in order |
| MadStream.SplicedTwice | libaudio/src/MadDecoder.cpp:287-290 | writing one run and then another right after it is writing the two runs joined, since the output index only grows |
| MadStream.JoinedSnoc | libaudio/src/MadDecoder.cpp:292-320 | one more decoded block extends what the blocks deliver by that block's run of frames, interleaved |
| MadStream.JoinedClamped | libaudio/src/MadDecoder.cpp:281-284 | every value that a run of blocks delivers is clamped |
| MadStream.ProgressStep | libaudio/src/MadDecoder.cpp:271-320 | a round of the decode loop keeps the output equal to the joined runs of the decoded blocks written from the start index over the old contents; a new block delivered whole keeps every block whole, and one delivered in part can only be the last |
| MadStream.ProgressGrow | libaudio/src/MpegFile.cpp:354-410 | the same round for a new block that delivers a run of frames with one channel count |
| MadStream.ProgressAfter | libaudio/src/MadDecoder.cpp:266-325 | the rest of the entry block followed by the loop's progress gives the whole output: its first values are those two joined, all clamped, and the values past them keep their old contents |
| DurationScan.TalliedCounts | libaudio/src/MadDecoder.cpp:183-205 | the frame counter counts every header; the first bitrate is kept; the VBR flag is set exactly when some later bitrate differs from the first |
| DurationScan.CutoffMeansConstant | libaudio/src/MpegFile.cpp:275-281 | the 25-frame cutoff fires exactly when 25 headers all had the first header's bitrate |
| DurationScan.CountKeepsGuard | libaudio/src/MadDecoder.cpp:205-211 | a scan that counts past the cutoff without stopping has seen a bitrate change within the first 25 headers |
| DurationScan.VbrByCutoffMeans | libaudio/src/MadDecoder.cpp:201-205 | the VBR flag raised by the first 25 bitrates is the same as those bitrates not all being equal |
| DurationScan.TagJump | libaudio/src/MadDecoder.cpp:165-175 | a tag crossing the window is split into a skip within the window and a file seek for the rest; de-padding is re-armed exactly when the tag reaches the window end |
| DurationScan.TagSkipped | libaudio/src/MadDecoder.cpp:163-176 | the tag size at this_frame is recorded, the stream skips the part inside the window, a tag reaching the window end seeks the file past the rest and re-arms de-padding, and nothing else changes |
| DurationScan.Fill | libaudio/src/MadDecoder.cpp:142-152 | the read count and file position are those of fread for the room behind the carried tail; after a non-empty read de-padding is done, the stream starts past the leading zero bytes when it was armed and at 0 otherwise, and ends after the tail and the bytes read; nothing else changes |
| DurationScan.FillWindow | libaudio/src/MadDecoder.cpp:142-152 | the carry, read, zero skip and rebuffer as written compute `Fill` |
| DurationScan.LeadingZeros | libaudio/src/MadDecoder.cpp:150 | the de-padding loop counts the leading zero bytes of what was read |
| DurationScan.HeaderStep | libaudio/src/MadDecoder.cpp:156-211 | a header pass stays inside the window and leaves the file, the tag size and de-padding alone |
| DurationScan.HeaderStepEffect | libaudio/src/MadDecoder.cpp:156-211 | a failed header changes nothing the scan accumulates, and the loop is left exactly for an unrecoverable error and a tag skipped exactly at a lost sync; a decoded header adds its duration and frame bytes; a counted header extends the bitrates and the tally and adds its time, and the loop is left, with an extrapolation, exactly at the cutoff |
| DurationScan.XingShortcut | libaudio/src/MadDecoder.cpp:183-198 | a pass ends the scan with a Xing estimate exactly when its header decodes, no header was counted, the frame decodes or fails recoverably and its ancillary data carry a non-zero count; the estimate is the time so far times that count |
| DurationScan.CountHeaderKeeps | libaudio/src/MadDecoder.cpp:200-211 | counting a header keeps the scan invariant (the tally is that of the bitrates counted, the time the sum of the durations, no constant run past 25), and the scan is decided only at the cutoff, by leaving the loop |
| DurationScan.FirstFrameKeeps | libaudio/src/MadDecoder.cpp:183-199 | the first frame keeps the scan invariant: a Xing estimate is taken before any header is counted, with a non-zero count |
| DurationScan.HeaderStepKeeps | libaudio/src/MadDecoder.cpp:154-211 | one header pass keeps the scan invariant and decides the scan only by leaving the loop |
| DurationScan.HeaderRunKeeps | libaudio/src/MadDecoder.cpp:154-212 | the header loop keeps the scan invariant; de-padding stays armed, or stays disarmed, unless a tag reaches the window end, which is counted |
| DurationScan.FillKeeps | libaudio/src/MadDecoder.cpp:142-152 | a fill keeps the scan invariant and leaves the scan undecided |
| DurationScan.ScanRunKeeps | libaudio/src/MadDecoder.cpp:140-214 | the outer loop keeps the scan invariant |
| DurationScan.ScanFilledKeeps | libaudio/src/MadDecoder.cpp:147-214 | a round of the outer loop after a fill keeps the scan invariant |
| DurationScan.ScanOutcome | libaudio/src/MadDecoder.cpp:121-222 | the tally is that of the counted bitrates and the file rewinds to where it began; a measured time is the sum of the decoded durations and went past 25 counted headers only after a bitrate change; a Xing estimate is that sum times a non-zero count, reached before any header was counted; an extrapolation sums exactly 25 headers of one bitrate and carries the file size, the last tag size and the bytes consumed |
| DurationScan.RepadOnlyAfterCrossing | libaudio/src/MadDecoder.cpp:150-173 | a fill after a header loop skips leading zeros again only when a tag reached the window end during that loop |
| DurationScan.ZeroRun | libaudio/src/MadDecoder.cpp:150 | de-padding skips exactly the leading zero bytes of what was read |
| DurationScan.ZeroRunUnique | libaudio/src/MpegFile.cpp:220-222 | any run of zeros followed by a non-zero byte or the end is the de-padding length |
| DurationScan.DecodeHeaders | libaudio/src/MadDecoder.cpp:154-212 | the header loop as written computes `HeaderRun`, one unit of fuel per header decode |
| DurationScan.HeaderPass | libaudio/src/MadDecoder.cpp:154-177 | one pass of the header loop is the first step of `HeaderRun`, and the loop goes on from its result unless it stops |
| DurationScan.HeaderPhase | libaudio/src/MadDecoder.cpp:147-214 | the rest of a round after the fill: nothing read ends the scan, otherwise the header loop runs and the outer loop goes on exactly when it stopped for more data |
| DurationScan.DecodeHeader | libaudio/src/MpegFile.cpp:226-281 | one pass as written is `HeaderStep` followed by the tag skip at a lost sync, and it leaves the loop exactly when that pass does |
| DurationScan.SkipTag | libaudio/src/MadDecoder.cpp:163-176 | the tag skip as written computes `TagSkipped` |
| DurationScan.ScanDuration | libaudio/src/MpegFile.cpp:188-292 | the estimate is the one the scan function reaches from the initial state over the window, and the file is left rewound; `ScanOutcome` states what that estimate is |
| MadLoop.Reread | libaudio/src/MadDecoder.cpp:229-257 | a refill keeps the window size, the file bytes and its fault flag; a failed or empty read leaves the stream unchanged, a read of more bytes clears its error; a device error needs a faulty file and a read of nothing an exhausted input |
| MadLoop.RereadKeepsExhausted | libaudio/src/MpegFile.cpp:313-337 | a refill that reads nothing leaves the file exhausted or the window full of unconsumed bytes |
| MadLoop.Attempt | libaudio/src/MadDecoder.cpp:305-320 | mad_frame_decode and what the frame loop does with its error leave the window and the file alone |
| MadLoop.AttemptEnds | libaudio/src/MadDecoder.cpp:305-316 | the frame decode never ends for lack of input or a device fault; it is fatal only with libmad's error unrecoverable, and it goes round only after a recoverable error or a buffer shortage |
| MadLoop.DecodeTurn | libaudio/src/MadDecoder.cpp:299-320 | a pass of the frame loop (refill on a shortage, then the frame decode) keeps the window size, the file bytes and its fault flag |
| MadLoop.DecodeTurnEnds | libaudio/src/MpegFile.cpp:389-409 | a fatal pass leaves libmad's error unrecoverable; a pass that reads nothing leaves the shortage and an exhausted input; a device fault needs a faulty file; a pass that goes round was sent round by a recoverable error or a shortage |
| MadLoop.SyncTurn | libaudio/src/MadDecoder.cpp:64-80 | a pass of the sync loop keeps the window size, the file bytes and its fault flag |
| MadLoop.Recovered | libaudio/src/MadDecoder.cpp:67-80 | the error branch of a sync pass (refill on a shortage, otherwise tag skip, resync and cleared error) keeps the window size and the file |
| MadLoop.SyncTurnEnds | libaudio/src/MpegFile.cpp:94-110 | from a stream without error a sync pass is never fatal; a decoded frame or a pass that goes round leaves no error; a read of nothing leaves the shortage and an exhausted input; a device fault needs a faulty file |
| MadLoop.SyncRun | libaudio/src/MadDecoder.cpp:63-80 | the sync loop, one unit of fuel per pass, keeps the window size, the file bytes and its fault flag |
| MadLoop.SyncFrom | libaudio/src/MadDecoder.cpp:63-80 | the sync loop from a pass keeps the window size and the file |
| MadLoop.SyncRecover | libaudio/src/MadDecoder.cpp:67-80 | the sync loop after an error keeps the window size and the file |
| MadLoop.SyncOn | libaudio/src/MpegFile.cpp:94-110 | the sync loop with fuel left is one pass and, when that pass sends it round, the loop again from where the pass left off |
| MadLoop.SyncRunEnds | libaudio/src/MadDecoder.cpp:63-84 | from a stream without error the sync loop never ends fatal; a frame or spent fuel leaves no error, so "No valid MP3 frame found" fires only after a read of nothing, which leaves the shortage and an exhausted input; a device fault needs a faulty file |
| MadLoop.SyncRunFuel | libaudio/src/MpegFile.cpp:94-110 | the fuel bound only cuts the sync loop short: a run that ends in anything but going round ends the same way with more fuel |
| MadLoop.Moved | libaudio/src/MadDecoder.cpp:317-319 | the decoder state after a frame-loop pass is sound: a decoded frame becomes the current block with the cursor at 0 |
| MadLoop.Grown | libaudio/src/MadDecoder.cpp:317-319 | a pass records one block and one header exactly when it decodes a frame |
| MadLoop.Prefixed | libaudio/src/MadDecoder.cpp:266-325 | a run seen after earlier blocks keeps its total, verdict and state and follows those blocks, headers and runs |
| MadLoop.PrefixedTwice | libaudio/src/MadDecoder.cpp:266-325 | prefixing twice is prefixing once with the joined history |
| MadDecoderModel.MadDecoder.constructor | libaudio/src/MadDecoder.cpp:24-29 | an empty window, cursor 0, signal length 0 and an unbuffered stream |
| MadDecoderModel.MadDecoder.NumChannels | libaudio/src/MadDecoder.cpp:104-117 | single channel gives 1, the other three modes give 2, and any other mode is the "Unknown channel mode" error |
| MadDecoderModel.MadDecoder.ReadMpgFile | libaudio/src/MadDecoder.cpp:229-257 | the result is the refill verdict of `Reread` (an I/O error, end of file, or more bytes) and the new window, stream and file are the ones `Reread` gives |
| MadDecoderModel.MadDecoder.ConsumeId3Tag | libaudio/src/MadDecoder.cpp:334-363 | a tag at the current frame is skipped exactly when its size is positive, the stream is always resynchronised, and the result says whether a tag was skipped |
| MadDecoderModel.MadDecoder.Start | libaudio/src/MadDecoder.cpp:32-91 | the estimate is getDuration's over the fresh window; the window's first bytes are those read from the rewound file and a short faulty read is the I/O error; otherwise the new input, header and block are where `SyncRun` from the first read ends and the outcome is its verdict; on success one header is decoded, its duration is the timer and the cursor is 0 |
| MadDecoderModel.MadDecoder.Prime | libaudio/src/MadDecoder.cpp:32-57 | the rewound file fills a fresh window of the given size and the estimate is getDuration's over it; a short faulty read is the I/O error, otherwise the stream covers the bytes read with no error; the timer, cursor and history are reset |
| MadDecoderModel.MadDecoder.Install | libaudio/src/MadDecoder.cpp:34-57 | the window, the estimate and the file are taken over and the decoder state is reset; a short read on a faulty file is the I/O error, and otherwise the stream covers exactly the bytes read with no error |
| MadDecoderModel.MadDecoder.Synchronise | libaudio/src/MadDecoder.cpp:63-90 | the input and header are where `SyncRun` ends and the outcome is its verdict (no valid frame after a read of nothing, the I/O error, or spent fuel); on success exactly one header and its block are recorded, the timer is its duration and there is no stream error |
| MadDecoderModel.MadDecoder.SyncLoop | libaudio/src/MadDecoder.cpp:63-80 | the loop as written ends where `SyncRun` does and reports its verdict |
| MadDecoderModel.MadDecoder.SyncPass | libaudio/src/MadDecoder.cpp:63-80 | the run with fuel left ends with this pass unless it goes round, and otherwise is the run from here with one unit fewer |
| MadDecoderModel.MadDecoder.SyncStep | libaudio/src/MadDecoder.cpp:64-80 | one pass of the sync loop ends where `SyncTurn` does, with its verdict |
| MadDecoderModel.MadDecoder.Deliver | libaudio/src/MadDecoder.cpp:272-293 | on success the count is the samples left in the block capped by the request, a whole number of frames; the cursor advances by those frames and the array becomes the old one with them written interleaved and clamped from the index; an unknown mode, or a count that is not whole frames, fails with nothing changed |
| MadDecoderModel.MadDecoder.Replenish | libaudio/src/MadDecoder.cpp:299-302 | the refill branch: an I/O error; end of input only when the file is exhausted or the window is full, with the stream error kept; or more bytes, with the error cleared |
| MadDecoderModel.MadDecoder.NextBlock | libaudio/src/MadDecoder.cpp:299-320 | the new input, header, block and cursor are those `DecodeTurn` gives (`Moved`) and the result is its verdict; a decoded frame, and only it, appends its header and block to the history; the errors are I/O and unrecoverable frame |
| MadDecoderModel.MadDecoder.DecodeFrame | libaudio/src/MadDecoder.cpp:305-320 | the frame decode as written ends where `Attempt` does, with its verdict; the only error is an unrecoverable frame |
| MadDecoderModel.MadDecoder.Continue | libaudio/src/MadDecoder.cpp:269-323 | the run is `DecodeRun` from the state on entry; from the start index up to the total the array holds exactly the runs of the blocks decoded meanwhile, each interleaved with its own header's channel count, and every other value is unchanged; the history grows by exactly those blocks; every block but a partial last one is delivered whole; the total reaches the request exactly when satisfied |
| MadDecoderModel.MadDecoder.Decode | libaudio/src/MadDecoder.cpp:266-325 | the total, verdict, final state and the blocks, headers and runs delivered are those of `DecodeOf`; at most the request is delivered, and exactly the request when satisfied; end of stream means the input ran out; the delivered values are the rest of the block current on entry, interleaved, then the runs of the blocks the history gained, every block but the last whole; all are clamped and the values past them keep their old contents |
| MadDecoderModel.MadDecoder.Finish | libaudio/src/MadDecoder.cpp:269-325 | after the entry block's values, the outer loop is `DecodeRun` and the array holds those values then the runs of the new blocks, all clamped, with the rest unchanged |
| MadDecoderModel.MadDecoder.Round | libaudio/src/MadDecoder.cpp:295-320 | one round of the outer loop ends as `RoundOf` does; it keeps the output equal to the runs of the blocks decoded so far, with the history grown by them; the total grows only when the round goes on |
| MadDecoderModel.MadDecoder.Advance | libaudio/src/MadDecoder.cpp:269-323 | a round seen from the run it belongs to: the run ends here unless the round is satisfied, and otherwise is the run from the new state with one unit of fuel fewer |
| MadDecoderModel.MadDecoder.Serve | libaudio/src/MadDecoder.cpp:271-297 | the delivery half of a round ends as `Served` does |
| MadDecoderModel.MadDecoder.Take | libaudio/src/MadDecoder.cpp:271-297 | the delivery is `Delivery` of the block from the cursor; a new block delivers one more run up to the request and is recorded with its header; a spent block delivers nothing; an error leaves the total alone |
| MadDecoderModel.MadDecoder.Hand | libaudio/src/MadDecoder.cpp:271-293 | the count and cursor move are `Delivery`'s, and the array becomes the old one with that run of the block written interleaved from the total |
| MadDecoderModel.Delivery | libaudio/src/MadDecoder.cpp:272-295 | one inner delivery writes at most what is pending and what the block has left; it fails exactly on an unknown channel mode, or where the source's count would wrap below zero |
| MadDecoderModel.DeliveryShares | libaudio/src/MadDecoder.cpp:272-295 | the delivery succeeds exactly for a known mode and a share of whole frames, and then is that share, frames times channels |
| MadDecoderModel.RoundOf | libaudio/src/MadDecoder.cpp:295-320 | a round of decode's outer loop keeps the state sound and the total between the old one and the request |
| MadDecoderModel.Served | libaudio/src/MadDecoder.cpp:271-297 | the delivery half of a round keeps the state sound and the total within the request |
| MadDecoderModel.DecodeRun | libaudio/src/MadDecoder.cpp:269-323 | decode's outer loop keeps the state sound and the total within the request |
| MadDecoderModel.Fueled | libaudio/src/MadDecoder.cpp:269-323 | one pass of the outer loop with the fuel bound keeps the total within the request |
| MadDecoderModel.AfterRound | libaudio/src/MadDecoder.cpp:269-323 | the outer loop from a round keeps the total within the request |
| MadDecoderModel.DecodeOf | libaudio/src/MadDecoder.cpp:266-325 | decode(request) never delivers past the request |
| MadDecoderModel.RoundEnds | libaudio/src/MadDecoder.cpp:295-320 | a round that does not go on delivers nothing; end of file leaves the shortage and an exhausted input; an unrecoverable frame error leaves libmad's error unrecoverable; an I/O error needs a faulty file; an unknown channel mode is the header's; a round records at most one block |
| MadDecoderModel.DecodeRunEnds | libaudio/src/MadDecoder.cpp:266-325 | the outer loop is satisfied exactly when the request is met; end of stream only with the input exhausted; the exceptions as in a round; one run and one header per block decoded, after those recorded before |
| MadDecoderModel.AfterRoundEnds | libaudio/src/MadDecoder.cpp:266-325 | the same for the loop from a round |
| MadDecoderModel.DecodeRunFuel | libaudio/src/MadDecoder.cpp:269-323 | the fuel bound only cuts decode short: a run that ends in anything but the bound ends the same way with more fuel |
| MadDecoderModel.AfterRoundFuel | libaudio/src/MadDecoder.cpp:269-323 | the same for the loop from a round |
| MadDecoderModel.ServedBy | libaudio/src/MadDecoder.cpp:271-297 | what one delivery reports is what `Served` gives for the round |
| MadDecoderModel.RunOn | libaudio/src/MadDecoder.cpp:269-323 | the outer loop with fuel left is one round and, when the round is satisfied, the loop again from where it left off |
| MadDecoderModel.Took | libaudio/src/MadDecoder.cpp:271-297 | a delivery from a new block, or none from a spent one, keeps the output equal to the joined runs of the recorded blocks, each with its header's channel count |
| MpegFileModel.MpegFile.constructor | libaudio/src/MpegFile.cpp:38-43 | no handle, 44100 Hz, 2 channels, sample cursor -1, signal length 0, no format or codec and an empty window |
| MpegFileModel.MpegFile.Close | libaudio/src/MpegFile.cpp:175-181 | the handle is released |
| MpegFileModel.MpegFile.Open | libaudio/src/MpegFile.cpp:53-142 | any mode but read fails and a file that cannot be opened fails; the estimate is getDuration's on a seekable file and kept otherwise; the window's first bytes are those of the first read from the rewound (or current) position, a short faulty read is the I/O error, and otherwise the input and header are where `OpenRun` ends and the outcome is `OpenOutcome`: the sync verdict, the channel count, then the registry lookups; on success the format and codec are the registry's MPEG entries |
| MpegFileModel.MpegFile.Prime | libaudio/src/MpegFile.cpp:67-88 | an 8192-byte fresh window, reset decoder state, the estimate of getDuration on a seekable file and the old one otherwise, and a first read from the rewound file, or from the current position when the file is not seekable; a short faulty read fails with the I/O error, otherwise the stream covers exactly the bytes read |
| MpegFileModel.MpegFile.Window | libaudio/src/MpegFile.cpp:67-88 | a fresh 8192-byte window, getDuration's estimate on a seekable file, and one read whose count, file position and bytes are those of fread from the rewound or current position |
| DurationScan.ScanAndLoad | libaudio/src/MpegFile.cpp:70-85 | the duration scan (when asked for) rewinds the file, then one read fills the window from its start: the count and file position are those of that read and the window's first bytes are the bytes taken |
| MpegFileModel.MpegFile.Synchronise | libaudio/src/MpegFile.cpp:94-114 | with the stream's error cleared first, the input and header are where `SyncRun` ends and the outcome is its verdict: a frame, the I/O error, "Error reading", or spent fuel |
| MpegFileModel.MpegFile.SyncLoop | libaudio/src/MpegFile.cpp:94-110 | the loop as written ends where `SyncRun` does and reports its verdict |
| MpegFileModel.MpegFile.SyncPass | libaudio/src/MpegFile.cpp:94-110 | the run with fuel left ends with this pass unless it goes round, and otherwise is the run from here with one unit fewer |
| MpegFileModel.MpegFile.SyncStep | libaudio/src/MpegFile.cpp:95-110 | one pass of the sync loop ends where `SyncTurn` does, with its verdict; fileRead throws both on a device error and on a read of nothing |
| MpegFileModel.MpegFile.Settle | libaudio/src/MpegFile.cpp:116-135 | the channel step fails exactly when the first frame's mode is unknown; on success the channels, rate, timer and cursor are set as open promises and the decoded block is the current one and the only one recorded |
| MpegFileModel.MpegFile.Identify | libaudio/src/MpegFile.cpp:138-139 | the format lookup fails exactly when the registry has no MPEG format; success exactly when both lookups succeed, and then format and codec are the registry's first MPEG entries |
| MpegFileModel.MpegFile.Decodable | libaudio/src/MpegFile.cpp:57-135 | open before its registry lookups: the mode and fopen errors, the estimate of getDuration on a seekable file and the old one otherwise, the 8192-byte window, and the outcome `DecodableVerdict` of where `OpenRun` ends |
| MpegFileModel.MpegFile.Unpack | libaudio/src/MpegFile.cpp:67-135 | the window, the estimate and the first read, then the sync loop and the channel count: the outcome is `DecodableVerdict` of `OpenRun` |
| MpegFileModel.MpegFile.Lock | libaudio/src/MpegFile.cpp:94-135 | the sync loop from a cleared error, then the channel count: the input and header are where `SyncRun` ends and the outcome is `DecodableVerdict` of it |
| MpegFileModel.MpegFile.FileRead | libaudio/src/MpegFile.cpp:313-337 | the result is `RefillOutcome` of `Reread` (the I/O error, "Error reading" when nothing was read, or more bytes) and the new window, stream and file are those `Reread` gives |
| MpegFileModel.MpegFile.ConsumeId3Tag | libaudio/src/MpegFile.cpp:423-452 | a tag is skipped exactly when its size is positive, the stream is always resynchronised, and the result says whether a tag was skipped |
| MpegFileModel.FramesCovering | libaudio/src/MpegFile.cpp:355-381 | the whole frames the sample loop writes for a request hold at least the request and less than one frame more |
| MpegFileModel.CoveringBounds | libaudio/src/MpegFile.cpp:355-386 | fewer frames than the covering count hold fewer values than the request, so the loop goes on; the covering count meets it; whole frames hold a multiple of the channel count |
| MpegFileModel.MpegFile.Deliver | libaudio/src/MpegFile.cpp:355-381 | the frames written are the smaller of the wanted and the unread frames; the cursor advances by them, and the array becomes the old one with those frames written interleaved and clamped from the index |
| MpegFileModel.MpegFile.NextFrame | libaudio/src/MpegFile.cpp:389-409 | the new input, header, block and cursor are those `DecodeTurn` gives (`Moved`) and the result is its verdict; a decoded frame, and only it, appends its header and block to the history |
| MpegFileModel.MpegFile.DecodeFrame | libaudio/src/MpegFile.cpp:395-409 | the frame decode as written ends where `Attempt` does, with its verdict; the only error is an unrecoverable frame |
| MpegFileModel.MpegFile.Fill | libaudio/src/MpegFile.cpp:354-411 | the run is `ReadRun` from the state on entry; from the start frame up to the frames done the array holds exactly the runs of the blocks decoded meanwhile, interleaved with the file's channel count, and every other value is unchanged; the history grows by exactly those blocks; every block but a partial last one is delivered whole; the frames done reach the wanted count exactly when satisfied |
| MpegFileModel.MpegFile.Round | libaudio/src/MpegFile.cpp:383-410 | one round of the outer loop ends as `ReadRound` does; it keeps the output equal to the runs of the blocks decoded so far, with the history grown by them; an error leaves the frames done alone |
| MpegFileModel.MpegFile.Advance | libaudio/src/MpegFile.cpp:354-411 | a round seen from the run it belongs to: the run ends here on an error, and otherwise is the run from the new state with one unit of fuel fewer |
| MpegFileModel.MpegFile.Serve | libaudio/src/MpegFile.cpp:354-381 | the delivery half of a round ends as `ReadServed` does |
| MpegFileModel.MpegFile.Take | libaudio/src/MpegFile.cpp:354-381 | after a frame decode the run is the smaller of the frames still wanted and those the block has left; a new block delivers that run and is recorded with its header; a spent block delivers nothing |
| MpegFileModel.MpegFile.MpegRead | libaudio/src/MpegFile.cpp:346-414 | the values written, the verdict, the final state and the blocks, headers and runs are those of `MpegReadOf`; the request is returned when satisfied; the values written are whole frames, exactly those covering the request then, so up to one frame past it; they are the rest of the block current on entry, interleaved, then the runs of the blocks the history gained, every block but the last whole; all are clamped and the rest of the array keeps its contents; running out of input is "Error reading" |
| MpegFileModel.MpegFile.Finish | libaudio/src/MpegFile.cpp:354-414 | after the entry block's frames, the outer loop is `ReadRun` and the array holds those values then the runs of the new blocks, all clamped, with the rest unchanged |
| MpegFileModel.MpegFile.Load | libaudio/src/MpegFile.cpp:146-171 | the buffer gets the file's rate and channels; on an error it is emptied; otherwise it holds frames times channels clamped samples and has data exactly when frames is positive |
| MpegFileModel.MpegFile.Fetch | libaudio/src/MpegFile.cpp:159-170 | a read of the buffer's whole frames: an error empties the buffer, success leaves it in place holding clamped samples |
| MpegFileModel.OpenRun | libaudio/src/MpegFile.cpp:85-110 | open's sync loop over the window after the first read keeps the window size |
| MpegFileModel.ReadRound | libaudio/src/MpegFile.cpp:383-410 | a round of mpegRead's outer loop keeps the state sound and the frames done within those wanted |
| MpegFileModel.ReadServed | libaudio/src/MpegFile.cpp:354-381 | the delivery half of a round keeps the frames done within those wanted |
| MpegFileModel.ReadRun | libaudio/src/MpegFile.cpp:354-411 | mpegRead's outer loop keeps the frames done within those wanted |
| MpegFileModel.ReadFueled | libaudio/src/MpegFile.cpp:354-411 | one pass of the outer loop with the fuel bound keeps the frames done within those wanted |
| MpegFileModel.ReadAfter | libaudio/src/MpegFile.cpp:354-411 | the outer loop from a round keeps the frames done within those wanted |
| MpegFileModel.MpegReadOf | libaudio/src/MpegFile.cpp:346-414 | mpegRead delivers at most the frames covering the request |
| MpegFileModel.ReadRoundEnds | libaudio/src/MpegFile.cpp:383-410 | a round that does not go on delivers nothing; "Error reading" leaves the shortage and an exhausted input; an unrecoverable frame error leaves libmad's error unrecoverable; an I/O error needs a faulty file; a round that goes on and falls short has spent the block |
| MpegFileModel.ReadRunEnds | libaudio/src/MpegFile.cpp:346-414 | the outer loop is satisfied exactly when every wanted frame is delivered; "Error reading" only with the input exhausted; the other exceptions as in a round; one run and one header per block decoded |
| MpegFileModel.ReadAfterEnds | libaudio/src/MpegFile.cpp:346-414 | the same for the loop from a round |
| MpegFileModel.ReadRunFuel | libaudio/src/MpegFile.cpp:354-411 | the fuel bound only cuts mpegRead short: a run that ends in anything but the bound ends the same way with more fuel |
| MpegFileModel.ReadAfterFuel | libaudio/src/MpegFile.cpp:354-411 | the same for the loop from a round |
| MpegFileModel.ReadRunOn | libaudio/src/MpegFile.cpp:354-411 | the outer loop with fuel left is one round and, when the round goes on, the loop again from where it left off |
| MpegFileModel.Dealt | libaudio/src/MpegFile.cpp:354-381 | a run of frames from a new block, or none from a spent one, keeps the output equal to the joined runs of the recorded blocks at the file's channel count |
| BufferSpec.Filled | libaudio/include/Buffer.h:135-141 | n copies of the value |
| BufferSpec.ResizedContents | libaudio/include/Buffer.h:114-130 | a resize keeps the common prefix and fills new elements with zero |
| BufferSpec.GrowThenShrink | libcommon/include/e3_Buffer.h:150-166 | growing and shrinking back restores the buffer |
| BufferSpec.ShrinkThenGrow | libcommon/include/e3_Buffer.h:150-166 | shrinking and growing back keeps the prefix and zeroes the rest |
| BufferSpec.RemovedRangeContents | libaudio/include/Buffer.h:174-197 | removing a range keeps what precedes it and shifts what follows it down by the range length |
| BufferSpec.InsertThenRemove | libcommon/include/e3_Buffer.h:228-254 | removing an inserted block restores the buffer |
| BufferSpec.InsertedContents | libcommon/include/e3_Buffer.h:228-254 | an insertion holds the block at its position, the elements before it in place, and the elements after it shifted up |
| Buffers.Buffer.constructor | libaudio/include/Buffer.h:29-34 | size zero-initialised elements |
| Buffers.Buffer.Copy | libaudio/include/Buffer.h:75-84 | the buffer becomes a copy of the source, and copying a buffer onto itself leaves it empty |
| Buffers.Buffer.Resize | libaudio/include/Buffer.h:114-130 | the contents become the resized contents: prefix kept, new elements zero |
| Buffers.Buffer.ResizeWith | libaudio/include/Buffer.h:135-141 | the buffer becomes size copies of the value |
| Buffers.Buffer.Set | libaudio/include/Buffer.h:144-149 | every element becomes the value |
| Buffers.Buffer.RemoveAt | libaudio/include/Buffer.h:151-171 | an empty buffer is unchanged; otherwise the element at the index is removed |
| Buffers.Buffer.RemoveRange | libaudio/include/Buffer.h:174-197 | an empty buffer is unchanged; otherwise the range, clamped so that the last element stays, is removed |
| Buffers.Buffer.Clear | libaudio/include/Buffer.h:200-207 | the buffer is empty |
| Buffers.Buffer.Cut | libaudio/include/Buffer.h:210-220 | allocating a copy without the range gives the remaining elements in order |
| Buffers.RangeLength | libaudio/include/Buffer.h:176-177 | the removal length is clamped to the elements after the index minus one, and a length within that is kept |
| Buffers.LastSurvives | libaudio/include/Buffer.h:176-177 | a range removal never removes the last element |
| Buffers.RangeOfOne | libaudio/include/Buffer.h:174-197 | removing a range of one element works except at the last index, where it removes nothing |
| E3Buffers.Buffer.constructor | libcommon/include/e3_Buffer.h:33-38 | size zero-initialised elements |
| E3Buffers.Buffer.Copy | libcommon/include/e3_Buffer.h:79-88 | the buffer becomes a copy of the source, and a self-copy leaves it empty |
| E3Buffers.Buffer.Resize | libcommon/include/e3_Buffer.h:150-166 | prefix kept, new elements zero |
| E3Buffers.Buffer.ResizeWith | libcommon/include/e3_Buffer.h:171-177 | size copies of the value |
| E3Buffers.Buffer.Set | libcommon/include/e3_Buffer.h:180-185 | every element becomes the value |
| E3Buffers.Buffer.Remove | libcommon/include/e3_Buffer.h:194-221 | a position past the end or a zero length leaves the buffer unchanged and returns null; otherwise the clamped range is removed |
| E3Buffers.Buffer.Insert | libcommon/include/e3_Buffer.h:228-254 | a position at or past the end inserts nothing and returns 0; otherwise the block is inserted at the position and its length returned |
| E3Buffers.Buffer.Clear | libcommon/include/e3_Buffer.h:257-264 | the buffer is empty |
| E3Buffers.RemoveActs | libcommon/include/e3_Buffer.h:194-221 | remove acts exactly when the position is inside and the length positive, and then shrinks the buffer by the clamped length |
| E3Buffers.InsertRemoveRoundTrip | libcommon/include/e3_Buffer.h:194-254 | removing a block inserted inside the buffer restores it |
| AudioBufferModel.AudioBuffer.constructor | libaudio/src/AudioBuffer.cpp:8-14 | no samples, rate 0, no frames, cursor 0 and the given channel count |
| AudioBufferModel.AudioBuffer.CopyOf | libaudio/src/AudioBuffer.cpp:17-23 | the copy has the source's samples, rate and channels and cursor 0, and its frame count is the source's channel count |
| AudioBufferModel.AudioBuffer.Assign | libaudio/src/AudioBuffer.cpp:27-36 | the samples, rate, channels and frame count are copied, and the cursor is set to the frame count |
| AudioBufferModel.AudioBuffer.AvailableUpTo | libaudio/include/AudioBuffer.h:55-58 | at most the request and at most what is available, and one of the two |
| AudioBufferModel.AudioBuffer.SetSampleRate | libaudio/include/AudioBuffer.h:21 | the rate is set |
| AudioBufferModel.AudioBuffer.SetNumChannels | libaudio/include/AudioBuffer.h:22 | the channel count is set |
| AudioBufferModel.AudioBuffer.Seek | libaudio/include/AudioBuffer.h:39 | the cursor is set |
| AudioBufferModel.AudioBuffer.Advance | libaudio/include/AudioBuffer.h:40 | the cursor moves, and the available frames drop by the same amount |
| AudioBufferModel.AudioBuffer.Resize | libaudio/src/AudioBuffer.cpp:78-85 | the samples become size zeros and the frame count the whole frames they hold |
| AudioBufferModel.AudioBuffer.ConvertSampleRate | libaudio/src/AudioBuffer.cpp:40-74 | a buffer with rate 0 takes the new rate; an equal rate does nothing; otherwise resampling is needed |
| AudioBufferModel.FramesFor | libaudio/src/AudioBuffer.cpp:82 | the whole frames in size samples, 0 for a non-positive channel count |
| AudioBufferModel.ResizeHasData | libaudio/include/AudioBuffer.h:30 | a resized buffer holds exactly its frames when the size is a positive multiple of the channel count |
| AudioBufferModel.AvailabilityAgrees | libaudio/include/AudioBuffer.h:32-63 | isAvailable, hasAvailable and isEnd agree with getAvailable |
| AudioBufferModel.CurrentInside | libaudio/include/AudioBuffer.h:65-74 | a cursor within the frames points inside the samples, the samples past it are the available frames, and the byte count of all frames is the byte count of all samples |
| AudioFileModel.ReadWriteModes | libaudio/include/core/AudioFile.h:191-192 | an open file is readable or writeable, both only in read-write mode, and a closed file neither |
| AudioFileModel.InstrumentChunk.constructor | libaudio/src/core/AudioFile.cpp:197-206 | gain 1, base note 60, keys 0 to 127, velocities 0 to 127, detune 0, no loops and no data |
| AudioFileModel.InstrumentChunk.SetHasData | libaudio/include/core/AudioFile.h:120 | only the flag changes |
| AudioFileModel.InstrumentChunk.SetGain | libaudio/include/core/AudioFile.h:123 | the gain is set and the chunk has data |
| AudioFileModel.InstrumentChunk.SetBaseNote | libaudio/include/core/AudioFile.h:124 | the base note is set and the chunk has data |
| AudioFileModel.InstrumentChunk.SetKeyLow | libaudio/include/core/AudioFile.h:125 | the low key is set and the chunk has data |
| AudioFileModel.InstrumentChunk.SetKeyHigh | libaudio/include/core/AudioFile.h:126 | the high key is set and the chunk has data |
| AudioFileModel.InstrumentChunk.SetVelocityLow | libaudio/include/core/AudioFile.h:127 | the low velocity is set and the chunk has data |
| AudioFileModel.InstrumentChunk.SetVelocityHigh | libaudio/include/core/AudioFile.h:128 | the high velocity is set and the chunk has data |
| AudioFileModel.InstrumentChunk.SetDetune | libaudio/include/core/AudioFile.h:129 | the detune is set and the chunk has data |
| AudioFileModel.InstrumentChunk.AddLoop | libaudio/include/core/AudioFile.h:140 | the loop is appended, the count grows by one, and the chunk has data |
| AudioFileModel.InstrumentChunk.ClearLoops | libaudio/include/core/AudioFile.h:139 | the loop list is emptied and nothing else changes |
| AudioFileModel.HasDataSticks | libaudio/include/core/AudioFile.h:120-140 | without an explicit setHasData, the flag ends set exactly when it was set or some edit other than clearLoops happened |
| AudioFileModel.LoopCount | libaudio/include/core/AudioFile.h:139-141 | without a clear, the loop count grows by the number of addLoop calls |
| AudioFormats.Initialized | libaudio/src/FormatManager.cpp:23-33 | the MPEG format and codec are registered after the sound-file ones, which keep their order |
| AudioFormats.FindFirst | libaudio/src/FormatManager.cpp:50-59 | the index of the first entry that matches, or none when no entry matches |
| AudioFormats.FindFirstInPrefix | libaudio/src/FormatManager.cpp:75-84 | a match among the earlier entries hides every later one |
| AudioFormats.FindFirstPastPrefix | libaudio/src/FormatManager.cpp:86-95 | with no earlier match the search result is that of the later entries, shifted |
| AudioFormats.FormatById | libaudio/src/FormatManager.cpp:50-59 | "Unknown format" exactly when no format has the id, otherwise the first that has it |
| AudioFormats.FormatByPrivateId | libaudio/src/FormatManager.cpp:62-71 | "Unknown format" exactly when no format has the private id, otherwise the first that has it |
| AudioFormats.FormatByName | libaudio/src/FormatManager.cpp:75-84 | "Unknown format" exactly when no format has the name, otherwise the first that has it |
| AudioFormats.CodecById | libaudio/src/FormatManager.cpp:86-95 | "Unknown codec" exactly when no codec has the id, otherwise the first that has it |
| AudioFormats.CodecByPrivateId | libaudio/src/FormatManager.cpp:98-107 | "Unknown codec" exactly when no codec has the private id, otherwise the first that has it |
| AudioFormats.CodecByName | libaudio/src/FormatManager.cpp:111-120 | "Unknown codec" exactly when no codec has the name, otherwise the first that has it |
| AudioFormats.MpegLookups | libaudio/src/MpegFile.cpp:470-480 | the MPEG format and codec are always found, and they are MpegFile's own entries when no sound-file entry shares their id |
| AudioFormats.SndFormatsFirst | libaudio/src/FormatManager.cpp:28-32 | a name the sound-file formats already have is found among them, before the MPEG entry |
| FormatManagerModel.LastIndex | libaudio/src/FormatManager.cpp:37-45 | the last occurrence of the character, or none when it does not occur |
| FormatManagerModel.LastIndexUnique | libaudio/src/FormatManager.cpp:37-45 | a position holding the character with no later occurrence is the last index |
| FormatManagerModel.FileName | libaudio/src/FormatManager.cpp:37-45 | the file name holds no directory separator |
| FormatManagerModel.Extension | libaudio/src/FormatManager.cpp:37-45 | the extension is empty, or a dot followed by no dot and no separator |
| FormatManagerModel.CreateFile | libaudio/src/FormatManager.cpp:37-45 | an MpegFile exactly when the extension is ".mp3", otherwise a multi-format file |
| FormatManagerModel.FileNameOfSuffix | libaudio/src/FormatManager.cpp:37-45 | appending text without a separator extends the file name by that text |
| FormatManagerModel.ExtensionOfSuffix | libaudio/src/FormatManager.cpp:37-45 | appending a dot-suffix makes it the extension |
| FormatManagerModel.Mp3GoesToMpegFile | libaudio/src/FormatManager.cpp:37-45 | a ".mp3" name opens an MpegFile, and a ".MP3" name does not, since the comparison is case-sensitive |
| FormatManagerModel.NoDotNoMpeg | libaudio/src/FormatManager.cpp:37-45 | a name without a dot opens a multi-format file |
| FormatManagerModel.IsSupported | libaudio/src/FormatManager.cpp:124-131 | a pair is supported exactly when the sound-file backend or MpegFile supports it, MpegFile taking only the MPEG format and codec |
| FormatManagerModel.MpegPairSupported | libaudio/src/MpegFile.cpp:463-466 | the MPEG pair is always supported, and MpegFile alone supports no other format |
| RecordBuffers.RingFull | libcommon/include/log/RecordBuffer.h:69-72 | for a consistent ring, full means every slot is used, and push and pop are always possible |
| RecordBuffers.PushAppends | libcommon/include/log/RecordBuffer.h:77-84 | pushing onto a ring that is not full appends the value to its contents, under every policy |
| RecordBuffers.PopTakesOldest | libcommon/include/log/RecordBuffer.h:113-124 | pop returns the oldest value and leaves the rest |
| RecordBuffers.PushAll | libcommon/include/log/RecordBuffer.h:77-84 | pushing values that fit appends them in order |
| RecordBuffers.PopAll | libcommon/include/log/RecordBuffer.h:113-124 | popping m values returns the m oldest in order |
| RecordBuffers.FifoOrder | libcommon/include/log/RecordBuffer.h:77-124 | values pushed into an empty ring come out in the order they went in |
| RecordBuffers.NewestPopsNewest | libcommon/include/log/RecordBuffer.h:92-95 | under USE_NEWEST a full ring overwrites the oldest slot without advancing the read position, so the next pop returns the new value, and the ring stays consistent only at size 1 |
| RecordBuffers.NewestIntended | libcommon/include/log/RecordBuffer.h:92-95 | the overwrite with the read position advanced as well |
| RecordBuffers.NewestIntendedDropsOldest | libcommon/include/log/RecordBuffer.h:92-95 | with the read position advanced, the oldest value is dropped and the new one appended |
| RecordBuffers.FullBufferKept | libcommon/include/log/RecordBuffer.h:87-106 | under USE_OLDEST and THROW a full buffer is unchanged, and only THROW raises |
| RecordBuffers.ResizeOnFull | libcommon/include/log/RecordBuffer.h:97-102 | a full ring grows to 1.5 times its size and takes the value, leaving the write position at the used count; at size 1 it cannot grow |
| RecordBuffers.RecordBuffer.constructor | libcommon/include/log/RecordBuffer.h:42-49 | size blank slots, positions 0, policy USE_NEWEST, empty contents |
| RecordBuffers.RecordBuffer.Resize | libcommon/include/log/RecordBuffer.h:52-56 | the vector is resized with its prefix kept |
| RecordBuffers.RecordBuffer.Clear | libcommon/include/log/RecordBuffer.h:59-66 | the vector is released and all positions are 0 |
| RecordBuffers.RecordBuffer.SetOverflowPolicy | libcommon/include/log/RecordBuffer.h:74 | the policy is set |
| RecordBuffers.RecordBuffer.Push | libcommon/include/log/RecordBuffer.h:77-110 | the new state is the pushed state, and OverflowException is raised exactly when a full buffer has the THROW policy |
| RecordBuffers.RecordBuffer.Pop | libcommon/include/log/RecordBuffer.h:113-124 | an empty buffer raises UnderflowException and is unchanged; otherwise the popped value is returned |
| PreallocatedQueues.Items | libcommon/include/PreallocatedQueue.h:36 | the stored values are the first front slots |
| PreallocatedQueues.ResizedTo | libcommon/include/PreallocatedQueue.h:52-58 | the vector takes the new size and the surviving values are the prefix up to the clamped count |
| PreallocatedQueues.PushOnTop | libcommon/include/PreallocatedQueue.h:63-73 | push puts the value on top, growing the vector by the auto-resize step only when it is full |
| PreallocatedQueues.PopUndoesPush | libcommon/include/PreallocatedQueue.h:78-95 | pop undoes push; pop and front fail exactly on an empty queue; pop removes the top value |
| PreallocatedQueues.FullWithoutAutoResize | libcommon/include/PreallocatedQueue.h:63-73 | a full queue with auto-resize 0 cannot take a push |
| PreallocatedQueues.PreallocatedQueue.constructor | libcommon/include/PreallocatedQueue.h:28-33 | size blank slots, no values, the given auto-resize step |
| PreallocatedQueues.PreallocatedQueue.SetAutoResize | libcommon/include/PreallocatedQueue.h:47 | the step is set |
| PreallocatedQueues.PreallocatedQueue.Resize | libcommon/include/PreallocatedQueue.h:52-58 | the new state is the resized state |
| PreallocatedQueues.PreallocatedQueue.Push | libcommon/include/PreallocatedQueue.h:63-73 | the new state is the pushed state |
| PreallocatedQueues.PreallocatedQueue.Pop | libcommon/include/PreallocatedQueue.h:78-84 | an empty queue raises and is unchanged; otherwise the top value is removed |
| PreallocatedQueues.PreallocatedQueue.Top | libcommon/include/PreallocatedQueue.h:89-95 | the top value, or the error on an empty queue |
| EnumHelper.GetLeft | libcommon/include/EnumHelper.h:31-38 | "EnumException" exactly when the right key is absent |
| EnumHelper.GetRight | libcommon/include/EnumHelper.h:40-47 | "EnumException" exactly when the left key is absent |
| EnumHelper.AddedBijective | libcommon/include/EnumHelper.h:25-28 | adding a pair keeps the two maps inverse to each other |
| EnumHelper.AddedFound | libcommon/include/EnumHelper.h:25-47 | a new pair is found both ways, other keys are unaffected, and a pair with a key already taken changes nothing |
| EnumHelper.LookupsInverse | libcommon/include/EnumHelper.h:31-47 | getRight(l) gives r exactly when getLeft(r) gives l |
| EnumHelper.EnumMapper.constructor | libcommon/include/EnumHelper.h:25-28 | both maps start empty |
| EnumHelper.EnumMapper.Add | libcommon/include/EnumHelper.h:25-28 | the new state is the pair added, unless a key was already taken |
| EnumHelper.Find | libcommon/include/EnumHelper.h:100-107 | a name table lookup finds exactly the keys present, with the name stored under the key |
| EnumHelper.FindAt | libcommon/include/EnumHelper.h:100-107 | in a sorted table every stored key finds its own name |
| EnumHelper.Position | libcommon/include/EnumHelper.h:70-79 | the insertion point of a sorted table, with smaller keys before it and larger ones after |
| EnumHelper.Inserted | libcommon/include/EnumHelper.h:70-79 | inserting a new key keeps the table sorted and adds exactly that key |
| EnumHelper.InsertedAt | libcommon/include/EnumHelper.h:70-79 | the new entry sits at the insertion point and the old entries keep their order around it |
| EnumHelper.InsertedFinds | libcommon/include/EnumHelper.h:70-107 | the inserted key finds its name and every other key finds what it found before |
| EnumHelper.NamesAdded | libcommon/include/EnumHelper.h:70-79 | adding names keeps both tables sorted over the same keys |
| EnumHelper.FindName | libcommon/include/EnumHelper.h:100-107 | "EnumException" exactly when the value has no name |
| EnumHelper.NamesAddedFinds | libcommon/include/EnumHelper.h:70-107 | adding fails exactly for a value already named; otherwise both names are found and other values are unaffected |
| EnumHelper.NamesPaired | libcommon/include/EnumHelper.h:94-95 | a value has a short name exactly when it has a long name |
| EnumHelper.EnumNames.constructor | libcommon/include/EnumHelper.h:70-79 | both tables start empty |
| EnumHelper.EnumNames.Add | libcommon/include/EnumHelper.h:70-79 | a new value is stored with both names, and a value already named raises and changes nothing |
| EnumHelper.EnumNames.GetShortName | libcommon/include/EnumHelper.h:94 | "EnumException" exactly when the value has no short name |
| EnumHelper.EnumNames.GetLongName | libcommon/include/EnumHelper.h:95 | "EnumException" exactly when the value has no long name |
| EnumHelper.EnumNames.GetValue | libcommon/include/EnumHelper.h:81-92 | the smallest value with the short name, or "EnumException" when no value has it |
| E3Math.Clip | libcommon/include/e3_Math.h:27-31 | the result is within ordered bounds and equals an inside value; with reversed bounds it is the lower bound |
| E3Math.ClipProperties | libcommon/include/e3_Math.h:27-31 | clipping is idempotent and monotone, and an outside value goes to the nearer bound |
| E3Math.BoundedRange.constructor | libcommon/include/e3_Math.h:40 | the bounds are stored in order |
| E3Math.BoundedRange.Validate | libcommon/include/e3_Math.h:53-59 | reversed bounds are swapped, ordered ones kept |
| E3Math.BoundedRange.Bound | libcommon/include/e3_Math.h:42 | the value clipped into the range |
| E3Math.BoundedRange.SetMin | libcommon/include/e3_Math.h:44 | the new minimum and the old maximum, in order |
| E3Math.BoundedRange.SetMax | libcommon/include/e3_Math.h:45 | the old minimum and the new maximum, in order |
| E3Math.BoundedRange.Range | libcommon/include/e3_Math.h:49 | the non-negative distance from the minimum to the maximum |
| E3Math.BoundedValue.constructor | libcommon/include/e3_Math.h:77 | the bounds in order and the value clipped into them |
| E3Math.BoundedValue.SetValue | libcommon/include/e3_Math.h:79 | the value is clipped into the range |
| E3Math.BoundedValue.Assign | libcommon/include/e3_Math.h:82 | assignment clips like setValue |
| E3Math.BoundedValue.SetMin | libcommon/include/e3_Math.h:44 | the inherited setMin moves the bounds and leaves the value as it was, so a value below a new lower bound within the range stays below the new minimum |
| E3Math.BoundedValue.SetMax | libcommon/include/e3_Math.h:45 | the inherited setMax moves the bounds and leaves the value as it was |
| E3Math.SetMinLeavesValueOutside | libcommon/include/e3_Math.h:86-90 | for any value below a new lower bound that does not pass the upper bound, setMin makes that bound the minimum, the value lies below it, and re-clipping would give the bound |
| E3Math.Reverse | libcommon/src/e3_Math.cpp:80-94 | the bytes in reverse order |
| E3Math.ReverseInvolution | libcommon/src/e3_Math.cpp:80-94 | reversing twice restores the bytes |
| E3Math.Swapped | libcommon/src/e3_Math.cpp:97-123 | the bytes of the field reversed and all others kept |
| E3Math.SwapInvolution | libcommon/src/e3_Math.cpp:97-123 | swapping twice restores the bytes |
| E3Math.Swap16 | libcommon/src/e3_Math.cpp:69-77 | the two bytes are exchanged in place |
| E3Math.Swap32 | libcommon/src/e3_Math.cpp:80-94 | the four bytes are reversed in place |
| E3Math.Swap64 | libcommon/src/e3_Math.cpp:97-123 | the eight bytes are reversed in place |
| E3Math.Combine14Bits | libcommon/src/e3_Math.cpp:126-134 | two 7-bit values combine into value2 times 128 plus value1 |
| E3Math.Combine14BitsSplits | libcommon/src/e3_Math.cpp:126-134 | for 7-bit inputs both values can be read back, and an eighth bit of value1 leaks into the high part |
| E3Utilities.Decimal | libcommon/src/e3_Utilities.cpp:178-189 | decimal digits without a leading zero, empty exactly for 0 |
| E3Utilities.DecimalRoundTrip | libcommon/src/e3_Utilities.cpp:178-189 | the digits read back as the number |
| E3Utilities.IntToString | libcommon/src/e3_Utilities.cpp:164-190 | values of at least 10^8 give "Huge!"; values above -10^9 give an optional minus and the decimal digits, which are empty for 0; values at or below -10^9 give a non-digit after the minus |
| E3Utilities.AppendDigits | libcommon/src/e3_Utilities.cpp:178-189 | the digit loop writes the decimal digits of its argument, and a leading non-digit when the argument is at least 10^9 |
| E3Utilities.FirstOf | libcommon/src/e3_Utilities.cpp:240-261 | a position it finds lies inside the text and holds a delimiter |
| E3Utilities.FirstOfIsFirst | libcommon/src/e3_Utilities.cpp:240-261 | nothing is found exactly when the text holds no delimiter, and no delimiter precedes the position found |
| E3Utilities.SplitHasNoDelimiters | libcommon/src/e3_Utilities.cpp:240-261 | no token contains a delimiter |
| E3Utilities.SplitJoinRoundTrip | libcommon/src/e3_Utilities.cpp:240-261 | joining the tokens with the delimiter restores a string that does not end with it |
| E3Utilities.Tokenize | libcommon/src/e3_Utilities.cpp:240-261 | the tokens of the input are appended after the ones already in the vector |
| E3Utilities.RandomString | libcommon/src/e3_Utilities.cpp:35-44 | a string of the given length whose character i is the charset entry chosen by draw i |
| AudioDevices.DefaultInfo | libaudio/src/core/AudioDevice.cpp:18-31 | the default description: unspecified port, no device, no channels, no rates, neither available nor default |
| AudioDevices.DefaultInfoIsInert | libaudio/src/AudioDevice.cpp:18-31 | the default description is neither input nor output and supports no rate |
| AudioDevices.NewDevice | libaudio/src/core/AudioDevice.cpp:85-95 | a device starts at 44100 Hz, 2 channels, 512 frames, interleaved 32-bit float |
| AudioDevices.CachedRateShortCircuits | libaudio/src/AudioDevice.cpp:107-124 | a rate in the cached list is accepted at once; otherwise the driver decides |
| AudioDevices.Accepted | libaudio/src/core/AudioDevice.cpp:42-49 | the rates the description lists |
| AudioDevices.NearestIndexIsNearest | libaudio/src/core/AudioDevice.cpp:60-67 | the index is the first of the table window nearest the rate: none is nearer, and every earlier one is farther |
| AudioDevices.NearestFrom | libaudio/src/AudioDevice.cpp:60-67 | the nearest-rate loop computes that index |
| AudioDevices.FirstAcceptedSound | libaudio/src/AudioDevice.cpp:53-77 | the rounds return 0 or the first accepted table rate from the given index, and 0 exactly when none is accepted |
| AudioDevices.FindBestSampleRate | libaudio/src/core/AudioDevice.cpp:53-77 | the result is the first accepted table rate at or above the one nearest the request, or 0 |
| AudioDevices.BestRateProperties | libaudio/src/AudioDevice.cpp:53-77 | the result is 0 or an accepted table rate, an accepted request is returned unchanged, and 0 means nothing at or above the nearest rate is accepted |
| AudioDevices.NoRateBelowNearest | libaudio/src/core/AudioDevice.cpp:53-77 | a device that accepts only rates below the table rate nearest the request gets 0: the search never goes below that rate |
| AudioDevices.NoRateBelowNearestAt48000 | libaudio/src/core/AudioDevice.cpp:53-77 | a device accepting only 44100, a table rate, gets 0 for a request of 48000 |
| AudioBridges.FirstWhere | libaudio/src/core/AudioBridge.cpp:34-43 | the first description that matches, or none |
| AudioBridges.GetDeviceInfo | libaudio/src/core/AudioBridge.cpp:34-43 | the first description with the id, or marked default when the default id is asked for; "device not found" exactly when none matches |
| AudioBridges.GetDevice | libaudio/src/AudioBridge.cpp:106-110 | a new device on the found description, or "device not found" |
| AudioBridges.InputDeviceId | libaudio/src/core/AudioBridge.cpp:61-72 | the id of the first matching description with input channels, or "device not found" |
| AudioBridges.OutputDeviceId | libaudio/src/core/AudioBridge.cpp:76-87 | the id of the first matching description with output channels, or "device not found" |
| AudioBridges.PortName | libaudio/src/core/AudioBridge.cpp:47-57 | the port's name, or the enum error for a port without one |
| AudioBridges.NamedDeviceIdFinds | libaudio/src/core/AudioBridge.cpp:47-57 | an id found is that of the first description with the port and device names, every description before it having a port name |
| AudioBridges.NamedDeviceIdMissing | libaudio/src/core/AudioBridge.cpp:47-57 | "no such device" exactly when every port is named and no description has both names |
| AudioBridges.GetInputDevice | libaudio/src/AudioBridge.cpp:128-139 | the selected input id is looked up again as a device |
| AudioBridges.GetOutputDevice | libaudio/src/AudioBridge.cpp:143-154 | the selected output id is looked up again as a device |
| AudioBridges.GetNamedDevice | libaudio/src/AudioBridge.cpp:114-124 | the named id is looked up again as a device, or its error is raised |
| AudioBridges.RelookupFindsSame | libaudio/src/AudioBridge.cpp:93-102 | with distinct ids, looking up a description's id finds that description |
| AudioBridges.SelectedDevicesKeepCapability | libaudio/src/AudioBridge.cpp:128-154 | with distinct ids, the input and output devices found have input or output channels |
| AudioBridges.NamedDeviceHasNames | libaudio/src/AudioBridge.cpp:114-124 | with distinct ids, the named device found carries the asked names |
| AudioBridges.DefaultOutputMayBeDefaultInput | libaudio/src/core/AudioBridge.cpp:76-87 | one default flag serves input and output (it is set for either default at libaudio/src/AudioBridge.cpp:66), so when the default input device can also output and is listed before the default output device, the default output lookup returns the input device |
| AudioBridges.RelookupNeedsDistinctIds | libaudio/src/AudioBridge.cpp:128-139 | with a repeated id, the input device returned can be an output-only description |

## Left out

- Floating point: the conversion of clamped samples to `float` is not modelled, and neither are `timerMultiply` / `madTimerMultiply`, the extrapolation by file size over bytes consumed (kept as the `Extrapolated` inputs), `calcNumBytes`' `sizeof(float)`, and the device latencies.
- libmad is abstract: its decoders and resynchroniser are an `Engine` of functions. An engine result that would move a stream position outside the buffer keeps the old positions.
- MpegFileModel.MpegFile.Open: the window bytes past those of the first read are the ghost `loaded`, left unspecified, because they are whatever the duration scan left in the window.
- MadDecoderModel.MadDecoder.Start: the same holds for the window bytes past the first read, the ghost `loaded`.
- Step bounds: the synchronisation loops, `decode`, `mpegRead` and `getDuration` take a `fuel` bound on engine calls, because libmad gives no termination measure. Running out is reported as `StepBound` or `StepBoundSpent`, which the source has no counterpart for.
- I/O: files are `Source` values. `fopen` is an optional source, `ferror` is the source's fault flag, and `fseek` moves the position. `fstat` and `isSeekable` are parameters.
- MpegFileModel.MpegFile.Load: the frame count `load` asks for is the `frames` parameter, because the source computes it in floating point from the signal length.
- MadDecoderModel.MadDecoder.Decode: where the source's unsigned pending count would wrap below zero (libaudio/src/MadDecoder.cpp:295, when the rest of the request is not a multiple of the channel count and the block holds more than that rest), the model stops with `RequestUnderflow` instead of writing on past the request.
- AudioBufferModel.AudioBuffer.ConvertSampleRate: the libsamplerate conversion is not modelled. Only the trivial branches and the decision to resample are.
- Allocation cannot fail in the model: `calloc` and `new` always succeed. The `size_ = 0` failure branches of `e3::Buffer` are therefore unreachable.
- Buffers.Buffer.RemoveRange: the debug `ASSERT` on the index is a `requires`.
- PreallocatedQueues: `autoResize` is a natural number. Pushing onto a full queue with step 0 writes out of bounds in the source, so `Push` requires `CanPush`.
- RecordBuffers.RecordBuffer.Pop: requires `CanPop`, a read position inside the vector whenever a record is held. `resize` (libcommon/include/log/RecordBuffer.h:52-56) can shrink the vector below the read position, and the source then reads out of bounds (libcommon/include/log/RecordBuffer.h:118).
- RecordBuffers.RecordBuffer.Push: requires a writable slot (`CanPush`). The source writes out of bounds at size 0, and also after RESIZE grows a size-1 buffer by nothing.
- AudioDevices.FindBestSampleRate: the request must fit in `int`, because the source casts it.
- E3Utilities.IntToString: `INT_MIN` is excluded because the source negates it. The `maxLen` argument and `strncat`'s truncation are not modelled.
- E3Utilities.RandomString: `rand()` is the `draws` sequence.
- AudioDevices: the driver's answer to `isSampleRateSupported` is the `driver` / `accepts` set of rates.
- AudioBridges: port names come from a name table parameter. The bridge constructor, `findSupportedSampleRates` and the core's abstract `getDevice(int)` are not modelled. The core's `getInputDevice` / `getOutputDevice` return the description's id; the bridge's look that id up again.
- FormatManagerModel: `boost::filesystem` paths are reduced to the last `/` and the last `.`. The sound-file backend's support test is a boolean parameter.
- AudioFormats: `CODEC_MPEG` is given the code 28, because its value is defined outside the modelled files.
- AudioFileModel: the `InstrumentChunk` getters and `LoopModeInfo` are left out, since they only read fields.
- `Buffer`'s `(value, size)` constructor is not modelled: it fills with `memset`, which sets bytes, not elements.

## Behaviour kept as written

The model follows the code wherever it departs from what the names suggest. These members model each such case:

- `getDuration` copies the carried tail from `this_frame` while measuring it from `next_frame`. `DurationScan.ScanDuration` models that copy as written.
- `consumeId3Tag` hands `getId3TagSize` the bytes from `this_frame` but measures their length from `next_frame`: `MadStream.ConsumeTag`.
- The `AudioBuffer` copy constructor sets the frame count to the source's channel count: `AudioBufferModel.AudioBuffer.CopyOf`.
- `RecordBuffer` under USE_NEWEST does not advance the read position, so the next pop returns the newest value: `RecordBuffers.NewestPopsNewest`. The version that advances it is `RecordBuffers.NewestIntended`, proved to drop the oldest value by `RecordBuffers.NewestIntendedDropsOldest`.
- After RESIZE the write position equals the used count, and a size-1 buffer cannot grow: `RecordBuffers.ResizeOnFull`.
- `Combine14Bits` does not mask its inputs: `E3Math.Combine14BitsSplits`.
- `e3::Buffer::insert` cannot append at the end: `E3Buffers.Buffer.Insert`.
- `BoundedValue`'s inherited `setMin` / `setMax` do not re-clip the value: `E3Math.SetMinLeavesValueOutside`.
- Copying a `Buffer` onto itself empties it: `Buffers.Buffer.Copy`.
- `removeRange` never removes the last element, so a range of one at the last index removes nothing: `Buffers.LastSurvives` and `Buffers.RangeOfOne`.
- `IntToString` writes a non-digit for values at or below -10^9, because its first divisor is 10^8, and it writes "" for 0: `E3Utilities.IntToString`.
- `findBestSampleRate` never goes below the table rate nearest the request: `AudioDevices.NoRateBelowNearest`.
- The bridge's re-lookup by id needs distinct ids: `AudioBridges.RelookupNeedsDistinctIds`.
- One default flag serves input and output, so a duplex default input device listed before the default output device is what the default output lookup returns: `AudioBridges.DefaultOutputMayBeDefaultInput`.
- `mpegRead` writes whole frames: a request that is not a multiple of the channel count gets the rest of the last frame written past it, and the cursor moves past that frame. The count returned is still the request: `MpegFileModel.MpegFile.MpegRead`.
