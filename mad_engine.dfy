/** What both libmad front ends (MadDecoder and MpegFile) share: bytes,
    libmad's stream state as positions in the byte window, the sample clamp,
    the channel mode table, and the decoding engine itself, which is kept
    abstract: it is a record of total functions chosen by the caller. */
module MadEngine {
  import opened Wrappers

  newtype byte = b: int | 0 <= b < 256

  /** MAD_F_FRACBITS and MAD_F_ONE of libmad's fixed-point sample format. */
  const MadFracBits: nat := 28
  const MadFOne: int := 0x1000_0000

  /** libmad's error codes as the decoders tell them apart. */
  datatype MadError = NoError | BufLen | LostSync | BadFrame | Unrecoverable

  /** MAD_RECOVERABLE: the 0x01xx and 0x02xx error classes. BufLen is not
      recoverable in this sense. */
  predicate Recoverable(e: MadError) { e == LostSync || e == BadFrame }

  /** Header modes: MAD_MODE_SINGLE_CHANNEL = 0, MAD_MODE_DUAL_CHANNEL = 1,
      MAD_MODE_JOINT_STEREO = 2, MAD_MODE_STEREO = 3. A header carries the
      integer code, so that a code outside the enum can be represented. */
  const ModeSingleChannel: int := 0
  const ModeStereo: int := 3

  datatype Header = Header(mode: int, bitrate: nat, samplerate: nat, duration: nat)

  const NoHeader := Header(0, 0, 0, 0)

  /** A synthesised block (mad_synth.pcm): one fixed-point sample per
      channel for each frame position; libmad always holds two rows. */
  datatype Pcm = Pcm(samplerate: nat, samples: seq<(int, int)>)

  const NoPcm := Pcm(0, [])

  function Sample(p: Pcm, channel: nat, i: nat): int
    requires channel < 2 && i < |p.samples|
  {
    if channel == 0 then p.samples[i].0 else p.samples[i].1
  }

  /** mad_stream: buffer start and end, this_frame and next_frame as indices
      into the decoder's byte window, the pending skip and the last error. */
  datatype Stream = Stream(bufStart: nat, bufEnd: nat, thisFrame: nat, nextFrame: nat,
                           skipLen: nat, error: MadError)

  predicate Ordered(s: Stream) {
    s.bufStart <= s.thisFrame <= s.nextFrame <= s.bufEnd
  }

  predicate Within(s: Stream, cap: nat) { Ordered(s) && s.bufEnd <= cap }

  /** mad_stream_init: no buffer, no error. */
  const Unbuffered := Stream(0, 0, 0, 0, 0, NoError)

  /** The bytes the engine has not consumed yet (bufend - next_frame). */
  function Leftover(s: Stream): nat
    requires Ordered(s)
  {
    s.bufEnd - s.nextFrame
  }

  /** mad_stream_buffer: point the stream at `len` bytes from `start`. */
  function Rebuffer(s: Stream, start: nat, len: nat): (r: Stream)
    ensures Ordered(r) && Leftover(r) == len && r.thisFrame == start
    ensures r.skipLen == s.skipLen && r.error == s.error
  {
    s.(bufStart := start, bufEnd := start + len, thisFrame := start, nextFrame := start)
  }

  /** mad_stream_skip: libmad skips `n` more bytes before the next header. */
  function Skip(s: Stream, n: nat): Stream { s.(skipLen := s.skipLen + n) }

  /** Moves this_frame/next_frame to positions an engine reported, when they
      lie inside the buffer; the engine is trusted never to leave it, so
      anything else keeps the old positions. */
  function Reposition(s: Stream, thisFrame: int, nextFrame: int): (r: Stream)
    ensures r.bufStart == s.bufStart && r.bufEnd == s.bufEnd
    ensures r.skipLen == s.skipLen && r.error == s.error
    ensures Ordered(s) ==> Ordered(r)
  {
    if s.bufStart <= thisFrame <= nextFrame <= s.bufEnd
    then s.(thisFrame := thisFrame, nextFrame := nextFrame)
    else s
  }

  /** One engine call's result: status, new stream positions and pending
      skip, the header it read, the synthesised block and the ancillary
      bits of the frame. */
  datatype Decoded = Decoded(status: MadError, thisFrame: int, nextFrame: int, skipLen: nat,
                             header: Header, pcm: Pcm, anc: seq<bool>)

  /** The abstract libmad: mad_frame_decode followed by mad_synth_frame,
      mad_header_decode, and mad_stream_sync, each given the window bytes
      and the current stream (and, for the frame decoder, the header the
      frame already holds). */
  datatype Engine = Engine(
    frameDecode: (seq<byte>, Stream, Header) -> Decoded,
    headerDecode: (seq<byte>, Stream) -> Decoded,
    sync: (seq<byte>, Stream) -> (int, int))

  /** The stream after an engine call: libmad records the error only on
      failure and leaves it unchanged on success. */
  function After(s: Stream, d: Decoded): (r: Stream)
    ensures r.bufStart == s.bufStart && r.bufEnd == s.bufEnd
    ensures Ordered(s) ==> Ordered(r)
    ensures r.error == if d.status == NoError then s.error else d.status
  {
    Reposition(s, d.thisFrame, d.nextFrame).(skipLen := d.skipLen,
      error := if d.status == NoError then s.error else d.status)
  }

  /** mad_stream_sync on the current window. */
  function Synced(e: Engine, window: seq<byte>, s: Stream): (r: Stream)
    ensures r.bufStart == s.bufStart && r.bufEnd == s.bufEnd && r.error == s.error
    ensures r.skipLen == s.skipLen
    ensures Ordered(s) ==> Ordered(r)
  {
    var p := e.sync(window, s);
    Reposition(s, p.0, p.1)
  }

  /** The sample clamp of decode/mpegRead: values below -MAD_F_ONE become
      -MAD_F_ONE, values at or above MAD_F_ONE become MAD_F_ONE - 1. */
  function Clamp(sample: int): (r: int)
    ensures -MadFOne <= r < MadFOne
    ensures -MadFOne <= sample < MadFOne ==> r == sample
  {
    if sample < -MadFOne then -MadFOne
    else if sample >= MadFOne then MadFOne - 1
    else sample
  }

  function Distance(a: int, b: int): nat { if a < b then b - a else a - b }

  /** The clamp picks the representable value nearest to the sample. */
  lemma ClampIsNearest(sample: int, v: int)
    requires -MadFOne <= v < MadFOne
    ensures Distance(Clamp(sample), sample) <= Distance(v, sample)
  {
  }

  /** Clamping preserves the order of samples. */
  lemma ClampMonotone(a: int, b: int)
    requires a <= b
    ensures Clamp(a) <= Clamp(b)
  {
  }

  /** The channel count of a header mode: 1 for single channel, 2 for dual
      channel, joint stereo and stereo, nothing for any other code (where
      the source throws). */
  function ChannelCount(mode: int): (r: Option<nat>)
    ensures r.Some? <==> ModeSingleChannel <= mode <= ModeStereo
    ensures r.Some? ==> 1 <= r.value <= 2 && (r.value == 1 <==> mode == ModeSingleChannel)
  {
    if ModeSingleChannel <= mode <= ModeStereo then Some(if mode != 0 then 2 else 1) else None
  }

  /** The channel count decode uses for a frame header, 0 for an unknown
      mode. */
  function Width(h: Header): (r: nat)
    ensures r <= 2 && (ChannelCount(h.mode).Some? ==> r == ChannelCount(h.mode).value)
  {
    match ChannelCount(h.mode)
    case Some(n) => n
    case None => 0
  }

  /** The channel counts of a sequence of headers. */
  function Widths(hs: seq<Header>): (r: seq<nat>)
    ensures |r| == |hs| && forall k :: 0 <= k < |hs| ==> r[k] == Width(hs[k])
  {
    seq(|hs|, k requires 0 <= k < |hs| => Width(hs[k]))
  }

  /** One more header adds its width. */
  lemma WidthsSnoc(hs: seq<Header>, h: Header)
    ensures Widths(hs + [h]) == Widths(hs) + [Width(h)]
  {
    assert Widths(hs + [h])[..|hs|] == Widths(hs);
  }
}
