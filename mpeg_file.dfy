/** MpegFile: the libmad-based AudioFile for MPEG audio. open() accepts
    only read mode, sizes an 8192-byte window, estimates the duration when
    the file is seekable, and synchronises on a first frame that fixes the
    channel count and sample rate; load() decodes into an AudioBuffer.
    Unlike MadDecoder, running out of input while more samples are wanted
    is an error ("Error reading"). */
module MpegFileModel {
  import opened Wrappers
  import opened MadEngine
  import opened MadStream
  import opened MadLoop
  import BufferSpec
  import Arithmetic
  import Buffers
  import DurationScan
  import AudioFileModel
  import AudioFormats
  import AudioBufferModel

  /** The size open() gives the byte window. */
  const WindowSize: nat := 8192

  /** The exceptions: "Only read mode suported for MPEG", strerror(errno)
      when fopen or fread fails, "Error reading" when fread delivers
      nothing, "Cannot determine number of channels", "unrecoverable frame
      level error", the FormatManager's "Unknown format" / "Unknown codec";
      StepBoundSpent where the step bound ran out. */
  datatype Failure = OnlyReadMode | CannotOpen | IoError | ReadError | UnknownChannels
                   | UnrecoverableFrame | UnknownFormat | UnknownCodec | StepBoundSpent

  /** Why mpegRead returned without an exception. */
  datatype Stop = Satisfied | StepBound

  /** The whole frames mpegRead writes for a request of `samples` values:
      the sample loop finishes the frame it is in, so the request is
      rounded up to a multiple of the channel count. */
  function FramesCovering(samples: nat, nch: nat): (r: nat)
    requires 1 <= nch <= 2
    ensures samples <= r * nch < samples + nch
  {
    if nch == 1 then samples else (samples + 1) / 2
  }

  /** Fewer frames than cover the request hold fewer values than it; all
      of them hold at least the request; whole frames hold a multiple of
      the channel count. */
  lemma CoveringBounds(request: nat, nch: nat, frames: nat)
    requires 1 <= nch <= 2 && frames <= FramesCovering(request, nch)
    ensures frames == FramesCovering(request, nch) ==> request <= frames * nch
    ensures frames < FramesCovering(request, nch) ==> frames * nch < request
    ensures (frames * nch) % nch == 0
  {
    DivModOf(frames, nch, 0);
    if nch == 2 {
      assert frames * nch == 2 * frames;
    }
  }

  /** Frame counts add up as value counts. */
  lemma FramesAdd(a: nat, b: nat, nch: nat)
    ensures (a + b) * nch == a * nch + b * nch
  {
  }

  /** isFormatSupported(format, codec): MPEG format and MPEG codec. */
  predicate IsFormatSupported(format: AudioFormats.FormatInfo, codec: AudioFormats.CodecInfo) {
    format.id == AudioFormats.FormatMpeg && codec.id == AudioFormats.CodecMpeg
  }

  /** Where open reads from: getDuration rewinds a seekable file. */
  function OpenStart(file: Source, seekable: bool): Source {
    if seekable then Rewound(file) else file
  }

  /** open's sync loop over the window `loaded` after the first read from
      `start`, with the stream's error cleared and no header yet. */
  ghost function OpenRun(e: Engine, start: Source, loaded: seq<byte>, fuel: nat): (o: Step)
    requires ReadCount(start, WindowSize) <= |loaded|
    ensures Fits(o.feed) && |o.feed.window| == |loaded|
  {
    var n := ReadCount(start, WindowSize);
    SyncRun(e, Feed(loaded, Rebuffer(Unbuffered, 0, n).(error := NoError), AfterRead(start, WindowSize)), NoHeader, fuel)
  }

  /** open up to the lookups, from the end of its sync loop: the loop's
      verdict, then the channel count of the frame it found. */
  function DecodableVerdict(o: Step): Outcome<Failure> {
    if OpenVerdict(o.turn).Fail? then OpenVerdict(o.turn)
    else if ChannelCount(o.header.mode).None? then Fail(UnknownChannels)
    else Pass
  }

  /** The end of open: getFormat(FORMAT_MPEG), then getCodec(CODEC_MPEG). */
  function Identified(registry: AudioFormats.Registry): Outcome<Failure> {
    if AudioFormats.FormatById(registry, AudioFormats.FormatMpeg).Err? then Fail(UnknownFormat)
    else if AudioFormats.CodecById(registry, AudioFormats.CodecMpeg).Err? then Fail(UnknownCodec)
    else Pass
  }

  /** All of open once its first read succeeded: then the format and
      codec lookups. */
  function OpenOutcome(o: Step, registry: AudioFormats.Registry): Outcome<Failure> {
    if DecodableVerdict(o).Fail? then DecodableVerdict(o) else Identified(registry)
  }

  /** getDuration's estimate as open computes it: over the freshly sized,
      all-zero window. */
  function OpenEstimate(e: Engine, file: Source, fuel: nat): DurationScan.Estimate {
    DurationScan.EstimateOf(DurationScan.ScanRun(e, BufferSpec.Filled(0, WindowSize), DurationScan.Initial(file), fuel))
  }

  /** What fileRead makes of each way a refill ends: the strerror
      exception on a device error, "Error reading" when nothing was read. */
  function RefillOutcome(k: Refilling): Outcome<Failure> {
    match k
    case DeviceError => Fail(IoError)
    case NothingRead => Fail(ReadError)
    case MoreBytes => Pass
  }

  /** How a pass of open's sync loop ends. */
  datatype Sync = Locked(block: Pcm) | Again | Thrown(failure: Failure)

  /** How open's sync loop reports each way a pass ends: fileRead throws
      both when the device fails and when it reads nothing. */
  function SyncVerdict(t: Turn): Sync {
    match t
    case Got(block) => Locked(block)
    case Retry => Again
    case NoInput => Thrown(ReadError)
    case DeviceFault => Thrown(IoError)
    case Fatal => Thrown(UnrecoverableFrame)
  }

  /** What open makes of the sync loop's end: a frame, fileRead's
      exceptions, or spent fuel. */
  function OpenVerdict(t: Turn): Outcome<Failure> {
    match t
    case Got(_) => Pass
    case Retry => Fail(StepBoundSpent)
    case NoInput => Fail(ReadError)
    case DeviceFault => Fail(IoError)
    case Fatal => Fail(UnrecoverableFrame)
  }

  /** What the frame decode of mpegRead yields: go on, or the exception. */
  function FrameVerdict(t: Turn): Outcome<Failure> {
    match t
    case DeviceFault => Fail(IoError)
    case NoInput => Fail(ReadError)
    case Fatal => Fail(UnrecoverableFrame)
    case _ => Pass
  }

  /** What mpegRead's rounds produce; totals count frame positions. */
  type Reading = Run<Result<Stop, Failure>>

  /** One round of mpegRead's outer loop from `st`, with `done` of
      `wanted` frame positions delivered: the frame decode, then, unless
      it threw, the frame positions the current block holds, at most
      those still wanted. */
  ghost function ReadRound(e: Engine, st: Snapshot, wanted: nat, done: nat): (o: Reading)
    requires Sound(st) && done <= wanted
    ensures Sound(o.state) && done <= o.total <= wanted
  {
    var t := DecodeTurn(e, st.feed, st.header);
    ReadServed(t, Moved(st, t), wanted, done)
  }

  ghost function ReadServed(t: Step, moved: Snapshot, wanted: nat, done: nat): (o: Reading)
    requires Sound(moved) && done <= wanted
    ensures Sound(o.state) && done <= o.total <= wanted
  {
    var grown := Grown(t);
    match FrameVerdict(t.turn)
    case Fail(x) => Run(done, Err(x), moved, [], [], [])
    case Pass =>
      var frames := Min(wanted - done, |moved.pcm.samples| - moved.cursor);
      Run(done + frames, Ok(Satisfied), moved.(cursor := moved.cursor + frames), grown.0, grown.1,
          if t.turn.Got? then [frames] else [])
  }

  /** mpegRead's outer loop from `st` with `done` of `wanted` frame
      positions delivered and the blocks `bs`, headers `hs` and runs
      `runs` recorded so far, one unit of `fuel` per round: rounds until
      the request is met or a round throws; StepBound when the fuel ran
      out first. */
  ghost function ReadRun(e: Engine, st: Snapshot, wanted: nat, done: nat, fuel: nat,
                         bs: seq<Pcm>, hs: seq<Header>, runs: seq<nat>): (o: Reading)
    requires Sound(st) && done <= wanted
    ensures Sound(o.state) && done <= o.total <= wanted
    decreases fuel, 2
  {
    if done == wanted then Run(done, Ok(Satisfied), st, bs, hs, runs)
    else ReadFueled(e, st, wanted, done, fuel, bs, hs, runs)
  }

  /** A pass of the outer loop with frame positions still wanted:
      StepBound once the fuel is spent, otherwise a round. */
  ghost function ReadFueled(e: Engine, st: Snapshot, wanted: nat, done: nat, fuel: nat,
                            bs: seq<Pcm>, hs: seq<Header>, runs: seq<nat>): (o: Reading)
    requires Sound(st) && done < wanted
    ensures Sound(o.state) && done <= o.total <= wanted
    decreases fuel, 1
  {
    if fuel == 0 then Run(done, Ok(StepBound), st, bs, hs, runs)
    else ReadAfter(e, st, wanted, done, fuel - 1, bs, hs, runs)
  }

  /** The outer loop from a round at `st`: over with its blocks recorded
      if it threw, otherwise the rounds from where it left off. */
  ghost function ReadAfter(e: Engine, st: Snapshot, wanted: nat, done: nat, fuel: nat,
                           bs: seq<Pcm>, hs: seq<Header>, runs: seq<nat>): (o: Reading)
    requires Sound(st) && done < wanted
    ensures Sound(o.state) && done <= o.total <= wanted
    decreases fuel, 3
  {
    var one := ReadRound(e, st, wanted, done);
    if one.verdict != Ok(Satisfied) then Prefixed(bs, hs, runs, one)
    else ReadRun(e, one.state, wanted, one.total, fuel, bs + one.bs, hs + one.hs, runs + one.runs)
  }

  /** mpegRead(request) from `st` with `nch` channels: the frames covering
      the request, first from the rest of the current block, then from the
      outer loop. */
  ghost function MpegReadOf(e: Engine, st: Snapshot, nch: nat, request: nat, fuel: nat): (o: Reading)
    requires Sound(st) && 1 <= nch <= 2
    ensures Sound(o.state) && o.total <= FramesCovering(request, nch)
  {
    var wanted := FramesCovering(request, nch);
    var first := Min(wanted, |st.pcm.samples| - st.cursor);
    ReadRun(e, st.(cursor := st.cursor + first), wanted, first, fuel, [], [], [])
  }

  /** How a round can end: anything but Satisfied delivers nothing; "Error
      reading" leaves the shortage and an exhausted input; an
      unrecoverable frame error leaves libmad's error unrecoverable; a
      device error needs a faulty file; a round that goes on and falls
      short has spent the current block. */
  lemma ReadRoundEnds(e: Engine, st: Snapshot, wanted: nat, done: nat)
    requires Sound(st) && done < wanted
    ensures var o := ReadRound(e, st, wanted, done);
      && (o.verdict != Ok(Satisfied) ==> o.total == done)
      && (o.verdict == Err(ReadError) ==> o.state.feed.stream.error == BufLen && Exhausted(o.state.feed))
      && (o.verdict == Err(UnrecoverableFrame) ==> o.state.feed.stream.error == Unrecoverable)
      && (o.verdict == Err(IoError) ==> o.state.feed.src.faulty)
      && (o.verdict == Ok(Satisfied) && o.total < wanted ==> o.state.cursor == |o.state.pcm.samples|)
      && |o.bs| == |o.hs| == |o.runs| <= 1
      && (o.verdict == Ok(Satisfied) || o.verdict == Err(ReadError) || o.verdict == Err(IoError)
          || o.verdict == Err(UnrecoverableFrame))
  {
    DecodeTurnEnds(e, st.feed, st.header);
  }

  /** How mpegRead's outer loop can end: Satisfied exactly when every
      wanted frame position is delivered; "Error reading" only with the
      input exhausted; the other exceptions as in a round; one run and one
      header for each block decoded, after those recorded before. */
  lemma {:induction false} ReadRunEnds(e: Engine, st: Snapshot, wanted: nat, done: nat, fuel: nat,
                                       bs: seq<Pcm>, hs: seq<Header>, runs: seq<nat>)
    requires Sound(st) && done <= wanted && |bs| == |hs| == |runs|
    ensures var o := ReadRun(e, st, wanted, done, fuel, bs, hs, runs);
      && (o.verdict == Ok(Satisfied) <==> o.total == wanted)
      && (o.verdict == Err(ReadError) ==> o.state.feed.stream.error == BufLen && Exhausted(o.state.feed))
      && (o.verdict == Err(UnrecoverableFrame) ==> o.state.feed.stream.error == Unrecoverable)
      && (o.verdict == Err(IoError) ==> o.state.feed.src.faulty)
      && (o.verdict.Err? ==> o.verdict.error in {IoError, ReadError, UnrecoverableFrame})
      && |o.bs| == |o.hs| == |o.runs|
      && bs <= o.bs && hs <= o.hs && runs <= o.runs
    decreases fuel, 0
  {
    if done < wanted && fuel > 0 {
      ReadAfterEnds(e, st, wanted, done, fuel - 1, bs, hs, runs);
    }
  }

  /** The same for the loop from a round at `done`. */
  lemma {:induction false} ReadAfterEnds(e: Engine, st: Snapshot, wanted: nat, done: nat, fuel: nat,
                                         bs: seq<Pcm>, hs: seq<Header>, runs: seq<nat>)
    requires Sound(st) && done < wanted && |bs| == |hs| == |runs|
    ensures var o := ReadAfter(e, st, wanted, done, fuel, bs, hs, runs);
      && (o.verdict == Ok(Satisfied) <==> o.total == wanted)
      && (o.verdict == Err(ReadError) ==> o.state.feed.stream.error == BufLen && Exhausted(o.state.feed))
      && (o.verdict == Err(UnrecoverableFrame) ==> o.state.feed.stream.error == Unrecoverable)
      && (o.verdict == Err(IoError) ==> o.state.feed.src.faulty)
      && (o.verdict.Err? ==> o.verdict.error in {IoError, ReadError, UnrecoverableFrame})
      && |o.bs| == |o.hs| == |o.runs|
      && bs <= o.bs && hs <= o.hs && runs <= o.runs
    decreases fuel, 1
  {
    ReadRoundEnds(e, st, wanted, done);
    var one := ReadRound(e, st, wanted, done);
    if one.verdict == Ok(Satisfied) {
      ReadRunEnds(e, one.state, wanted, one.total, fuel, bs + one.bs, hs + one.hs, runs + one.runs);
    }
  }

  /** The fuel bound only cuts mpegRead short: once a run ends in
      anything but StepBound, more fuel ends it the same way. */
  lemma {:induction false} ReadRunFuel(e: Engine, st: Snapshot, wanted: nat, done: nat, fuel: nat, more: nat,
                                       bs: seq<Pcm>, hs: seq<Header>, runs: seq<nat>)
    requires Sound(st) && done <= wanted && fuel <= more
    requires ReadRun(e, st, wanted, done, fuel, bs, hs, runs).verdict != Ok(StepBound)
    ensures ReadRun(e, st, wanted, done, more, bs, hs, runs) == ReadRun(e, st, wanted, done, fuel, bs, hs, runs)
    decreases fuel, 0
  {
    if done < wanted {
      ReadAfterFuel(e, st, wanted, done, fuel - 1, more - 1, bs, hs, runs);
    }
  }

  /** The same for the loop from a round. */
  lemma {:induction false} ReadAfterFuel(e: Engine, st: Snapshot, wanted: nat, done: nat, fuel: nat, more: nat,
                                         bs: seq<Pcm>, hs: seq<Header>, runs: seq<nat>)
    requires Sound(st) && done < wanted && fuel <= more
    requires ReadAfter(e, st, wanted, done, fuel, bs, hs, runs).verdict != Ok(StepBound)
    ensures ReadAfter(e, st, wanted, done, more, bs, hs, runs) == ReadAfter(e, st, wanted, done, fuel, bs, hs, runs)
    decreases fuel, 1
  {
    var one := ReadRound(e, st, wanted, done);
    if one.verdict == Ok(Satisfied) {
      ReadRunFuel(e, one.state, wanted, one.total, fuel, more, bs + one.bs, hs + one.hs, runs + one.runs);
    }
  }

  /** One round of mpegRead's outer loop, seen from the run it starts. */
  lemma ReadRunOn(e: Engine, st: Snapshot, wanted: nat, done: nat, fuel: nat,
                  bs: seq<Pcm>, hs: seq<Header>, runs: seq<nat>)
    requires Sound(st) && done < wanted && fuel > 0
    ensures var one := ReadRound(e, st, wanted, done);
      ReadRun(e, st, wanted, done, fuel, bs, hs, runs)
      == if one.verdict != Ok(Satisfied) then Prefixed(bs, hs, runs, one)
         else ReadRun(e, one.state, wanted, one.total, fuel - 1, bs + one.bs, hs + one.hs, runs + one.runs)
  {
    assert ReadRun(e, st, wanted, done, fuel, bs, hs, runs) == ReadAfter(e, st, wanted, done, fuel - 1, bs, hs, runs);
  }

  /** ProgressGrow for mpegRead's frame counts, covering the spent block
      too, which delivers nothing. */
  lemma Dealt(w0: seq<int>, start: nat, done: nat, before: seq<int>, after: seq<int>,
              bs: seq<Pcm>, runs: seq<nat>, b: Pcm, from: nat, nch: nat, frames: nat, grew: bool, partial: bool,
              done': nat, bs': seq<Pcm>, runs': seq<nat>)
    requires 1 <= nch <= 2 && from + frames <= |b.samples|
    requires if grew then from == 0 && (frames < |b.samples| ==> partial) else frames == 0
    requires Progress(w0, start * nch, done * nch, before, bs, Repeated(nch, |bs|), runs, false)
    requires done' == done + frames && done' * nch <= |before|
    requires after == Spliced(before, done * nch, Interleaved(b, from, frames, nch))
    requires if grew then bs' == bs + [b] && runs' == runs + [frames] else bs' == bs && runs' == runs
    ensures Progress(w0, start * nch, done' * nch, after, bs', Repeated(nch, |bs'|), runs', partial)
  {
    FramesAdd(done, frames, nch);
    if grew {
      RepeatedSnoc(nch, |bs|);
      ProgressGrow(w0, start * nch, done * nch, before, after, bs, Repeated(nch, |bs|), runs, b, nch, frames, partial);
    } else {
      assert Interleaved(b, from, frames, nch) == [];
      assert after == before;
    }
  }

  class MpegFile {
    /** libmad */
    const engine: Engine
    /** mpegBuffer_: the byte window, a Buffer<unsigned char>. */
    const mpegBuffer: Buffers.Buffer<byte>
    /** handle_: the open file, None for NULL. */
    var handle: Option<Source>
    /** fileOpenMode_ */
    var mode: AudioFileModel.FileOpenMode
    /** madStream_, madFrame_.header, madSynth_.pcm, madTimer_ */
    var stream: Stream
    var header: Header
    var pcm: Pcm
    var timer: nat
    /** currentSample_: the next frame position of `pcm` to deliver, -1
        before the first successful open. */
    var currentSample: int
    /** signalLength_ */
    var signalLength: DurationScan.Estimate
    /** sampleRate_, numChannels_, numFrames_, format_, codec_ */
    var sampleRate: int
    var numChannels: int
    var numFrames: nat
    var format: AudioFormats.FormatInfo
    var codec: AudioFormats.CodecInfo
    /** The headers of the frames decoded since open, in order, and the
        block each one synthesised. */
    ghost var decoded: seq<Header>
    ghost var blocks: seq<Pcm>

    ghost predicate Valid()
      reads this, mpegBuffer
    {
      mpegBuffer.zero == 0 && Within(stream, mpegBuffer.data.Length)
      && timer == TotalDuration(decoded) && |blocks| == |decoded|
    }

    /** The next frame position lies inside the current block. */
    ghost predicate Positioned()
      reads this`currentSample, this`pcm
    {
      0 <= currentSample <= |pcm.samples|
    }

    /** The state open leaves once a first frame decoded: the cursor at the
        start of its block, its sample rate and channel count, and that one
        frame timed and recorded. */
    ghost predicate Ready()
      reads this`currentSample, this`pcm, this`sampleRate, this`header, this`numChannels,
            this`decoded, this`blocks, this`timer
    {
      currentSample == 0 && Positioned() && sampleRate == pcm.samplerate
      && ChannelCount(header.mode).Some? && numChannels == ChannelCount(header.mode).value
      && decoded == [header] && blocks == [pcm] && timer == header.duration
    }

    /** What the file holds as values: its input, and its state as
        mpegRead sees it. */
    ghost function Input(): Feed
      requires handle.Some?
      reads this`handle, this`stream, mpegBuffer`data, mpegBuffer.data
    {
      Feed(mpegBuffer.data[..], stream, handle.value)
    }

    ghost function State(): Snapshot
      requires handle.Some? && Positioned()
      reads this`handle, this`stream, mpegBuffer`data, mpegBuffer.data, this`header, this`pcm, this`currentSample
    {
      Snapshot(Input(), header, pcm, currentSample as nat)
    }

    /** MpegFile(): no file, cursor -1, no signal length; the AudioFile
        defaults of 44100 Hz, two channels, no frames and read mode. */
    constructor (e: Engine)
      ensures Valid() && engine == e && handle.None? && currentSample == -1
      ensures signalLength == DurationScan.Measured(0) && mode == AudioFileModel.OpenRead
      ensures sampleRate == 44100 && numChannels == 2 && numFrames == 0
      ensures format == AudioFormats.NoFormat && codec == AudioFormats.NoCodec
      ensures mpegBuffer.data.Length == 0 && decoded == [] && blocks == []
    {
      engine := e;
      mpegBuffer := new Buffers.Buffer<byte>(0, 0);
      handle := None;
      mode := AudioFileModel.OpenRead;
      stream := Unbuffered;
      header := NoHeader;
      pcm := NoPcm;
      timer := 0;
      currentSample := -1;
      signalLength := DurationScan.Measured(0);
      sampleRate := 44100;
      numChannels := 2;
      numFrames := 0;
      format := AudioFormats.NoFormat;
      codec := AudioFormats.NoCodec;
      decoded := [];
      blocks := [];
    }

    /** isOpened() and AudioFile::isReadable(). */
    predicate IsOpened()
      reads this
    {
      handle.Some?
    }

    predicate Readable()
      reads this
    {
      AudioFileModel.IsReadable(handle.Some?, mode)
    }

    /** close(): the handle becomes NULL; a second call does nothing. */
    method Close()
      modifies this`handle
      ensures handle.None?
    {
      if handle.Some? {
        handle := None;
      }
    }

    /** open(filename, mode): `file` is what fopen yields (None for NULL),
        `seekable` what isSeekable() answers, `registry` the FormatManager's
        lists. `loaded` is the window once the first read filled it. */
    method Open(m: AudioFileModel.FileOpenMode, file: Option<Source>, seekable: bool,
                registry: AudioFormats.Registry, fuel: nat) returns (r: Outcome<Failure>, ghost loaded: seq<byte>)
      requires Valid()
      modifies this, mpegBuffer
      ensures Valid() && mode == m
      ensures m != AudioFileModel.OpenRead ==> r == Fail(OnlyReadMode) && handle == old(handle)
      ensures m == AudioFileModel.OpenRead && file.None? ==> r == Fail(CannotOpen) && handle.None?
      ensures r.Pass? ==> m == AudioFileModel.OpenRead && file.Some? && handle.Some?
      ensures r.Pass? ==> mpegBuffer.data.Length == WindowSize && stream.error == NoError
      ensures r.Pass? ==> Ready()
      ensures r.Pass? ==> (AudioFormats.FormatById(registry, AudioFormats.FormatMpeg) == Ok(format)
                           && AudioFormats.CodecById(registry, AudioFormats.CodecMpeg) == Ok(codec))
      ensures r.Fail? ==> r.error != UnrecoverableFrame
      ensures m == AudioFileModel.OpenRead && file.Some? && seekable ==>
        signalLength == OpenEstimate(engine, file.value, fuel)
      ensures !(m == AudioFileModel.OpenRead && file.Some? && seekable) ==> signalLength == old(signalLength)
      ensures m == AudioFileModel.OpenRead && file.Some? ==> handle.Some?
      ensures m == AudioFileModel.OpenRead && file.Some? ==>
        var start := OpenStart(file.value, seekable);
        var n := ReadCount(start, WindowSize);
        |loaded| == WindowSize && loaded[..n] == Taken(start, WindowSize)
        && (ReadFails(start, WindowSize) ==> r == Fail(IoError))
        && (!ReadFails(start, WindowSize) ==>
              var o := OpenRun(engine, start, loaded, fuel);
              Input() == o.feed && header == o.header && r == OpenOutcome(o, registry)
              && (r.Pass? ==> o.turn.Got? && pcm == o.turn.block))
    {
      r, loaded := Decodable(m, file, seekable, fuel);
      if r.Pass? {
        r := Identify(registry);
      }
    }

    /** open up to the format and codec lookups: the mode and fopen
        checks, then the window, the first read, the sync loop and the
        channel count. */
    method Decodable(m: AudioFileModel.FileOpenMode, file: Option<Source>, seekable: bool, fuel: nat)
      returns (r: Outcome<Failure>, ghost loaded: seq<byte>)
      requires Valid()
      modifies this, mpegBuffer
      ensures Valid() && mode == m
      ensures m != AudioFileModel.OpenRead ==> r == Fail(OnlyReadMode) && handle == old(handle)
      ensures m == AudioFileModel.OpenRead && file.None? ==> r == Fail(CannotOpen) && handle.None?
      ensures r.Pass? ==> m == AudioFileModel.OpenRead && file.Some? && handle.Some?
      ensures r.Pass? ==> mpegBuffer.data.Length == WindowSize && stream.error == NoError
      ensures r.Pass? ==> Ready()
      ensures r.Fail? ==> r.error != UnrecoverableFrame && r.error != UnknownFormat && r.error != UnknownCodec
      ensures m == AudioFileModel.OpenRead && file.Some? && seekable ==>
        signalLength == OpenEstimate(engine, file.value, fuel)
      ensures !(m == AudioFileModel.OpenRead && file.Some? && seekable) ==> signalLength == old(signalLength)
      ensures m == AudioFileModel.OpenRead && file.Some? ==> handle.Some?
      ensures m == AudioFileModel.OpenRead && file.Some? ==>
        var start := OpenStart(file.value, seekable);
        var n := ReadCount(start, WindowSize);
        |loaded| == WindowSize && loaded[..n] == Taken(start, WindowSize)
        && (ReadFails(start, WindowSize) ==> r == Fail(IoError))
        && (!ReadFails(start, WindowSize) ==>
              var o := OpenRun(engine, start, loaded, fuel);
              Input() == o.feed && header == o.header && r == DecodableVerdict(o)
              && (r.Pass? ==> o.turn.Got? && pcm == o.turn.block))
    {
      mode := m;
      if m != AudioFileModel.OpenRead {
        return Fail(OnlyReadMode), [];
      }
      handle := file;
      if handle.None? {
        return Fail(CannotOpen), [];
      }
      r, loaded := Unpack(handle.value, seekable, fuel);
    }

    /** open once the file is open: the window and the first read, then
        the sync loop and the channel count. */
    method Unpack(file: Source, seekable: bool, fuel: nat) returns (r: Outcome<Failure>, ghost loaded: seq<byte>)
      requires Valid()
      modifies this, mpegBuffer
      ensures Valid() && mode == old(mode) && handle.Some?
      ensures r.Pass? ==> mpegBuffer.data.Length == WindowSize && stream.error == NoError && Ready()
      ensures r.Fail? ==> r.error == IoError || r.error == ReadError || r.error == StepBoundSpent
                          || r.error == UnknownChannels
      ensures seekable ==> signalLength == OpenEstimate(engine, file, fuel)
      ensures !seekable ==> signalLength == old(signalLength)
      ensures var start := OpenStart(file, seekable);
        var n := ReadCount(start, WindowSize);
        |loaded| == WindowSize && loaded[..n] == Taken(start, WindowSize)
        && (ReadFails(start, WindowSize) ==> r == Fail(IoError))
        && (!ReadFails(start, WindowSize) ==>
              var o := OpenRun(engine, start, loaded, fuel);
              Input() == o.feed && header == o.header && r == DecodableVerdict(o)
              && (r.Pass? ==> o.turn.Got? && pcm == o.turn.block))
    {
      r := Prime(file, seekable, fuel);
      loaded := mpegBuffer.data[..];
      if r.Pass? {
        r := Lock(fuel);
      }
    }

    /** The sync loop of open and what open makes of the frame it finds:
        the channel count, the timer, the block, the sample rate and the
        cursor. */
    method Lock(fuel: nat) returns (r: Outcome<Failure>)
      requires Valid() && handle.Some? && decoded == [] && timer == 0
      modifies this`stream, this`handle, this`header, mpegBuffer.data, this`numChannels, this`timer,
               this`decoded, this`blocks, this`pcm, this`sampleRate, this`currentSample
      ensures Valid() && handle.Some?
      ensures r.Pass? ==> Ready() && stream.error == NoError
      ensures r.Fail? ==> r.error == IoError || r.error == ReadError || r.error == StepBoundSpent
                          || r.error == UnknownChannels
      ensures var o := SyncRun(engine, old(Input()).(stream := old(stream).(error := NoError)), old(header), fuel);
        Input() == o.feed && header == o.header && r == DecodableVerdict(o)
        && (r.Pass? ==> o.turn.Got? && pcm == o.turn.block)
    {
      var block: Pcm;
      r, block := Synchronise(fuel);
      if r.Pass? {
        // The loop leaves only on a decoded frame, and libmad keeps the
        // error it was given (none) on success: the source's "No valid
        // MP3 frame found" test after the loop never fires.
        assert stream.error == NoError;
        r := Settle(block);
      }
    }

    /** The window open sizes (cleared, then WindowSize zero bytes), the
        duration scan over it when the file is seekable, and the first
        read. */
    method Window(file: Source, seekable: bool, fuel: nat) returns (estimate: DurationScan.Estimate, count: nat, after: Source)
      requires mpegBuffer.zero == 0
      modifies mpegBuffer
      ensures fresh(mpegBuffer.data) && mpegBuffer.data.Length == WindowSize
      ensures seekable ==> estimate == OpenEstimate(engine, file, fuel)
      ensures var start := OpenStart(file, seekable);
        count == ReadCount(start, WindowSize) && after == AfterRead(start, WindowSize)
        && count <= WindowSize && mpegBuffer.data[..count] == Taken(start, WindowSize)
    {
      mpegBuffer.Clear();
      mpegBuffer.Resize(WindowSize);
      assert mpegBuffer.data[..] == BufferSpec.Filled(0, WindowSize);
      estimate, count, after := DurationScan.ScanAndLoad(engine, mpegBuffer.data, file, seekable, fuel);
    }

    /** The window part of open, once the file is open: the 8192-byte
        window, the duration estimate on a seekable file (which rewinds
        it), reset decoder state and the first read. */
    method Prime(file: Source, seekable: bool, fuel: nat) returns (r: Outcome<Failure>)
      requires Valid()
      modifies this, mpegBuffer
      ensures Valid() && mode == old(mode)
      ensures decoded == [] && timer == 0 && pcm == NoPcm && header == NoHeader
      ensures seekable ==> signalLength == OpenEstimate(engine, file, fuel)
      ensures !seekable ==> signalLength == old(signalLength)
      ensures var start := OpenStart(file, seekable);
        var n := ReadCount(start, WindowSize);
        mpegBuffer.data.Length == WindowSize && fresh(mpegBuffer.data)
        && mpegBuffer.data[..n] == Taken(start, WindowSize)
        && handle == Some(AfterRead(start, WindowSize))
        && r == (if ReadFails(start, WindowSize) then Fail(IoError) else Pass)
        && (r.Pass? ==> stream == Rebuffer(Unbuffered, 0, n))
    {
      var estimate, bytesRead, after := Window(file, seekable, fuel);
      var next := Unbuffered;
      r := Fail(IoError);
      if !(bytesRead != WindowSize && after.faulty) {
        next := Rebuffer(Unbuffered, 0, bytesRead);
        r := Pass;
      }
      assert Within(next, mpegBuffer.data.Length) && next.error == NoError;
      if seekable {
        signalLength := estimate;
      }
      handle, stream := Some(after), next;
      header, pcm, timer, decoded, blocks := NoHeader, NoPcm, 0, [], [];
    }

    /** The sync loop of open, with the stream's error cleared first:
        decode until a frame decodes; on BufLen refill (which throws at end
        of file); otherwise skip any tag, resync and clear the error.
        Yields the decoded frame's block. */
    method Synchronise(fuel: nat) returns (r: Outcome<Failure>, block: Pcm)
      requires Valid() && handle.Some?
      modifies this`stream, this`handle, this`header, mpegBuffer.data
      ensures Valid() && handle.Some?
      ensures r.Fail? ==> r.error == IoError || r.error == ReadError || r.error == StepBoundSpent
      ensures r.Pass? ==> stream.error == NoError
      ensures var o := SyncRun(engine, old(Input()).(stream := old(stream).(error := NoError)), old(header), fuel);
        Input() == o.feed && header == o.header && r == OpenVerdict(o.turn)
        && (o.turn.Got? ==> block == o.turn.block)
    {
      stream := stream.(error := NoError);
      var v := SyncLoop(fuel);
      match v
      case Thrown(f) =>
        return Fail(f), NoPcm;
      case Again =>
        return Fail(StepBoundSpent), NoPcm;
      case Locked(b) =>
        return Pass, b;
    }

    /** The passes of open's sync loop: until one decodes a frame or
        throws, or the fuel is spent. */
    method SyncLoop(fuel: nat) returns (v: Sync)
      requires Valid() && handle.Some? && stream.error == NoError
      modifies this`stream, this`handle, this`header, mpegBuffer.data
      ensures Valid() && handle.Some?
      ensures v.Again? || v.Locked? ==> stream.error == NoError
      ensures v.Thrown? ==> v.failure == IoError || v.failure == ReadError
      ensures var o := SyncRun(engine, old(Input()), old(header), fuel);
        Input() == o.feed && header == o.header && SyncVerdict(o.turn) == v
    {
      ghost var run := SyncRun(engine, Input(), header, fuel);
      var steps := fuel;
      v := Again;
      while steps > 0 && v.Again?
        invariant Valid() && handle.Some?
        invariant v.Again? || v.Locked? ==> stream.error == NoError
        invariant v.Thrown? ==> v.failure == IoError || v.failure == ReadError
        invariant v.Again? ==> SyncRun(engine, Input(), header, steps) == run
        invariant !v.Again? ==> Input() == run.feed && header == run.header && SyncVerdict(run.turn) == v
        decreases steps
      {
        v := SyncPass(steps, run);
        steps := steps - 1;
      }
    }

    /** A pass of the sync loop as the loop sees it: the run `goal` with
        `fuel` passes left ends with this pass unless it sends the loop
        round, and otherwise is the run from here with one pass fewer. */
    method SyncPass(ghost fuel: nat, ghost goal: Step) returns (v: Sync)
      requires Valid() && handle.Some? && stream.error == NoError
      requires fuel > 0 && goal == SyncRun(engine, Input(), header, fuel)
      modifies this`stream, this`handle, this`header, mpegBuffer.data
      ensures Valid() && handle.Some?
      ensures v.Again? || v.Locked? ==> stream.error == NoError
      ensures v.Thrown? ==> v.failure == IoError || v.failure == ReadError
      ensures v.Again? ==> goal == SyncRun(engine, Input(), header, fuel - 1)
      ensures !v.Again? ==> Input() == goal.feed && header == goal.header && SyncVerdict(goal.turn) == v
    {
      SyncOn(engine, Input(), header, fuel);
      v := SyncStep();
    }

    /** One pass of open's sync loop: a frame decoded, the loop to go on
        (after a refill, or after a tag skip, resync and cleared error), or
        fileRead's exception. */
    method SyncStep() returns (v: Sync)
      requires Valid() && handle.Some? && stream.error == NoError
      modifies this`stream, this`handle, this`header, mpegBuffer.data
      ensures Valid() && handle.Some?
      ensures v.Again? || v.Locked? ==> stream.error == NoError
      ensures v.Thrown? ==> v.failure == IoError || v.failure == ReadError
      ensures var t := SyncTurn(engine, old(Input()), old(header));
        Input() == t.feed && header == t.header && v == SyncVerdict(t.turn)
    {
      var d := engine.frameDecode(mpegBuffer.data[..], stream, header);
      header := d.header;
      stream := After(stream, d);
      if d.status == NoError {
        return Locked(d.pcm);
      }
      if stream.error == BufLen {
        var r := FileRead();
        if r.Fail? {
          return Thrown(r.error);
        }
        return Again;
      }
      var _ := ConsumeId3Tag();
      stream := stream.(error := NoError);
      return Again;
    }

    /** The end of open, before format and codec: the channel count from
        the frame's mode, the timer, the block, the sample rate and the
        cursor. */
    method Settle(block: Pcm) returns (r: Outcome<Failure>)
      requires Valid() && decoded == [] && timer == 0
      modifies this`numChannels, this`timer, this`decoded, this`blocks, this`pcm, this`sampleRate,
               this`currentSample
      ensures Valid()
      ensures r == Pass || r == Fail(UnknownChannels)
      ensures r.Pass? <==> ChannelCount(header.mode).Some?
      ensures r.Pass? ==> Ready() && pcm == block
    {
      var channels := ChannelCount(header.mode);
      r := Fail(UnknownChannels);
      if channels.Some? {
        assert TotalDuration(decoded + [header]) == header.duration;
        numChannels := channels.value;
        timer := timer + header.duration;
        decoded := decoded + [header];
        pcm := block;
        blocks := blocks + [pcm];
        sampleRate := pcm.samplerate;
        currentSample := 0;
        r := Pass;
      }
    }

    /** The last two steps of open: getFormat(FORMAT_MPEG) and
        getCodec(CODEC_MPEG), each throwing when the registry lacks it. */
    method Identify(registry: AudioFormats.Registry) returns (r: Outcome<Failure>)
      modifies this`format, this`codec
      ensures r == Pass || r == Fail(UnknownFormat) || r == Fail(UnknownCodec)
      ensures r == Fail(UnknownFormat) <==> AudioFormats.FormatById(registry, AudioFormats.FormatMpeg).Err?
      ensures r.Pass? <==> (AudioFormats.FormatById(registry, AudioFormats.FormatMpeg).Ok?
                            && AudioFormats.CodecById(registry, AudioFormats.CodecMpeg).Ok?)
      ensures r.Pass? ==> (AudioFormats.FormatById(registry, AudioFormats.FormatMpeg) == Ok(format)
                           && AudioFormats.CodecById(registry, AudioFormats.CodecMpeg) == Ok(codec))
      ensures r == Identified(registry)
    {
      var f := AudioFormats.FormatById(registry, AudioFormats.FormatMpeg);
      r := Fail(UnknownFormat);
      if f.Ok? {
        format := f.value;
        var c := AudioFormats.CodecById(registry, AudioFormats.CodecMpeg);
        r := Fail(UnknownCodec);
        if c.Ok? {
          codec := c.value;
          r := Pass;
        }
      }
    }

    /** fileRead: carries the unconsumed tail to the front of the window
        and tops it up from the file; throws, leaving the stream as it was,
        on a device error and when no byte was read. */
    method FileRead() returns (r: Outcome<Failure>)
      requires Valid() && handle.Some?
      modifies this`stream, this`handle, mpegBuffer.data
      ensures Valid() && handle.Some?
      ensures var k := Reread(old(Input()));
        r == RefillOutcome(k.0) && Input() == k.1
      ensures r == Fail(ReadError) ==>
        Remaining(handle.value) == [] || Leftover(stream) == mpegBuffer.data.Length
    {
      var leftover := stream.bufEnd - stream.nextFrame;
      var bytesRead, after := Refill(mpegBuffer.data, stream, handle.value);
      handle := Some(after);
      if bytesRead != mpegBuffer.data.Length && after.faulty {
        r := Fail(IoError);
      } else if bytesRead == 0 {
        r := Fail(ReadError);
      } else {
        stream := Rebuffer(stream, 0, bytesRead + leftover).(error := NoError);
        r := Pass;
      }
    }

    /** consumeId3Tag: skips a tag at this_frame (measured from next_frame),
        always resyncs, and reports whether a tag was skipped. */
    method ConsumeId3Tag() returns (skipped: bool)
      requires Valid()
      modifies this`stream
      ensures Valid()
      ensures skipped == (Id3TagAt(old(stream)) > 0)
      ensures stream == TagResynced(engine, mpegBuffer.data[..], old(stream))
    {
      skipped, stream := ConsumeTag(engine, mpegBuffer.data[..], stream);
    }

    ghost function Id3TagAt(s: Stream): nat
      reads this, mpegBuffer, mpegBuffer.data
      requires Ordered(s) && s.bufEnd <= mpegBuffer.data.Length
    {
      Id3.TagSize(TagWindow(mpegBuffer.data[..], s))
    }

    /** One pass of mpegRead's inner loops: the frame positions the
        current block still holds, at most `pending`, stored channel by
        channel from `at`, with the cursor advanced past them. */
    method Deliver(out: array<int>, at: nat, pending: nat) returns (frames: nat)
      requires Positioned() && 1 <= numChannels <= 2
      requires at + pending * numChannels <= out.Length
      modifies out, this`currentSample
      ensures Positioned()
      ensures frames == Min(pending, |pcm.samples| - old(currentSample))
      ensures currentSample == old(currentSample) + frames
      ensures out[..] == Spliced(old(out[..]), at, Interleaved(pcm, old(currentSample), frames, numChannels as nat))
    {
      var nch := numChannels as nat;
      frames := Min(pending, |pcm.samples| - currentSample);
      assert frames * nch <= pending * nch;
      ExtractFrames(out, at, pcm, currentSample as nat, frames, nch);
      currentSample := currentSample + frames;
    }

    /** What mpegRead does once the current block is spent: refill the
        window when libmad asked for more input, then decode the next
        frame. A recoverable error skips any tag and resyncs; a buffer
        shortage is retried; any other error throws. A decoded frame
        (`grew`) advances the timer and becomes the current block. */
    method NextFrame() returns (r: Outcome<Failure>, ghost grew: bool)
      requires Valid() && handle.Some? && Positioned()
      modifies this`stream, this`handle, this`header, this`pcm, this`currentSample, this`timer,
               this`decoded, this`blocks, mpegBuffer.data
      ensures Valid() && handle.Some? && Positioned()
      ensures grew ==> (r.Pass? && decoded == old(decoded) + [header]
                        && blocks == old(blocks) + [pcm] && currentSample == 0)
      ensures !grew ==> (decoded == old(decoded) && blocks == old(blocks)
                         && pcm == old(pcm) && currentSample == old(currentSample))
      ensures var t := DecodeTurn(engine, old(Input()), old(header));
        State() == Moved(old(State()), t) && grew == t.turn.Got? && r == FrameVerdict(t.turn)
    {
      ghost var f := Input();
      if stream.error == BufLen {
        r := FileRead();
        ghost var k := Reread(f);
        if r.Fail? {
          assert DecodeTurn(engine, f, header) == Step(if k.0 == DeviceError then DeviceFault else NoInput, k.1, header);
          return r, false;
        }
        assert DecodeTurn(engine, f, header) == Attempt(engine, Input(), header);
      } else {
        assert DecodeTurn(engine, f, header) == Attempt(engine, f, header);
      }
      r, grew := DecodeFrame();
    }

    /** The frame decode of mpegRead's outer loop, once the window holds
        input: a recoverable error skips any tag and resyncs, a buffer
        shortage is retried, any other error throws, and a decoded frame
        advances the timer and becomes the current block. */
    method DecodeFrame() returns (r: Outcome<Failure>, ghost grew: bool)
      requires Valid() && handle.Some? && Positioned()
      modifies this`stream, this`header, this`pcm, this`currentSample, this`timer, this`decoded, this`blocks
      ensures Valid() && handle.Some? && Positioned()
      ensures r.Fail? ==> r.error == UnrecoverableFrame
      ensures grew ==> (r.Pass? && decoded == old(decoded) + [header]
                        && blocks == old(blocks) + [pcm] && currentSample == 0)
      ensures !grew ==> (decoded == old(decoded) && blocks == old(blocks)
                         && pcm == old(pcm) && currentSample == old(currentSample))
      ensures var t := Attempt(engine, old(Input()), old(header));
        State() == Moved(old(State()), t) && grew == t.turn.Got? && r == FrameVerdict(t.turn)
    {
      var d := engine.frameDecode(mpegBuffer.data[..], stream, header);
      header := d.header;
      stream := After(stream, d);
      if d.status != NoError {
        if Recoverable(stream.error) {
          var _ := ConsumeId3Tag();
          return Pass, false;
        } else if stream.error == BufLen {
          return Pass, false;
        } else {
          return Fail(UnrecoverableFrame), false;
        }
      }
      timer := timer + header.duration;
      decoded := decoded + [header];
      pcm := d.pcm;
      blocks := blocks + [pcm];
      currentSample := 0;
      return Pass, true;
    }

    /** mpegRead's outer loop: from frame position `start` of `out` up to
        `wanted`, decode a new frame whenever the current block runs out
        and deliver its frames, until the request is met, an exception
        leaves it, or `fuel` decode attempts are spent. From index
        `start * numChannels` on, `out` receives `runs[k]` frame positions
        of each block `bs[k]` decoded meanwhile, from the frame with header
        `hs[k]`, and nothing else changes; every block but the last is
        delivered whole. */
    method Fill(out: array<int>, start: nat, wanted: nat, fuel: nat)
      returns (doneFrames: nat, r: Result<Stop, Failure>, ghost bs: seq<Pcm>, ghost hs: seq<Header>, ghost runs: seq<nat>)
      requires Valid() && handle.Some? && Positioned() && 1 <= numChannels <= 2
      requires start <= wanted && wanted * numChannels <= out.Length
      requires start < wanted ==> currentSample == |pcm.samples|
      modifies this`stream, this`handle, this`header, this`pcm, this`currentSample, this`timer,
               this`decoded, this`blocks, mpegBuffer.data, out
      ensures Valid() && handle.Some? && Positioned()
      ensures start <= doneFrames <= wanted
      ensures r == Ok(Satisfied) <==> doneFrames == wanted
      ensures r.Err? ==> r.error == IoError || r.error == ReadError || r.error == UnrecoverableFrame
      ensures r == Err(ReadError) ==>
        Remaining(handle.value) == [] || Leftover(stream) == mpegBuffer.data.Length
      ensures decoded == old(decoded) + hs && blocks == old(blocks) + bs
      ensures Progress(old(out[..]), start * numChannels, doneFrames * numChannels, out[..],
                       bs, Repeated(numChannels, |bs|), runs, r.Err? || doneFrames == wanted)
      ensures Run(doneFrames, r, State(), bs, hs, runs) == ReadRun(engine, old(State()), wanted, start, fuel, [], [], [])
    {
      var nch := numChannels as nat;
      doneFrames := start;
      r := Ok(Satisfied);
      bs, hs, runs := [], [], [];
      ghost var d0, b0, w0 := decoded, blocks, out[..];
      ghost var st0 := State();
      ghost var now := st0;
      ghost var goal := ReadRun(engine, st0, wanted, start, fuel, [], [], []);
      assert start * nch <= out.Length;
      ProgressStart(w0, start * nch);
      var steps := fuel;
      while doneFrames < wanted
        invariant Valid() && handle.Some? && Positioned() && numChannels == old(numChannels)
        invariant start <= doneFrames <= wanted
        invariant decoded == d0 + hs && blocks == b0 + bs
        invariant Progress(w0, start * nch, doneFrames * nch, out[..], bs, Repeated(nch, |bs|), runs, doneFrames == wanted)
        invariant doneFrames < wanted ==> currentSample == |pcm.samples|
        invariant r == Ok(Satisfied)
        invariant now == State()
        invariant goal == ReadRun(engine, now, wanted, doneFrames, steps, bs, hs, runs)
        decreases steps
      {
        if steps == 0 {
          return doneFrames, Ok(StepBound), bs, hs, runs;
        }
        doneFrames, r, bs, hs, runs, now := Advance(out, nch, start, doneFrames, wanted, d0, b0, w0, bs, hs, runs,
                                                    steps, now, goal);
        steps := steps - 1;
        if r.Err? {
          return;
        }
      }
    }

    /** A round of mpegRead's outer loop as the loop sees it: the run
        `goal` from the state `st` with `fuel` rounds left ends with this
        round when the round throws, and otherwise is the run from the new
        state `st'` with one round fewer. */
    method Advance(out: array<int>, nch: nat, start: nat, doneFrames: nat, wanted: nat,
                   ghost d0: seq<Header>, ghost b0: seq<Pcm>, ghost w0: seq<int>,
                   ghost bs: seq<Pcm>, ghost hs: seq<Header>, ghost runs: seq<nat>,
                   ghost fuel: nat, ghost st: Snapshot, ghost goal: Reading)
      returns (done': nat, r: Result<Stop, Failure>, ghost bs': seq<Pcm>, ghost hs': seq<Header>, ghost runs': seq<nat>,
               ghost st': Snapshot)
      requires Valid() && handle.Some? && Positioned() && 1 <= nch <= 2 && numChannels == nch
      requires start <= doneFrames < wanted && wanted * nch <= out.Length
      requires currentSample == |pcm.samples|
      requires decoded == d0 + hs && blocks == b0 + bs
      requires Progress(w0, start * nch, doneFrames * nch, out[..], bs, Repeated(nch, |bs|), runs, false)
      requires fuel > 0 && st == State()
      requires goal == ReadRun(engine, st, wanted, doneFrames, fuel, bs, hs, runs)
      modifies this`stream, this`handle, this`header, this`pcm, this`currentSample, this`timer,
               this`decoded, this`blocks, mpegBuffer.data, out
      ensures Valid() && handle.Some? && Positioned()
      ensures doneFrames <= done' <= wanted && (r.Ok? ==> r == Ok(Satisfied))
      ensures r.Err? ==> done' == doneFrames
      ensures r.Err? ==> r.error == IoError || r.error == ReadError || r.error == UnrecoverableFrame
      ensures r == Err(ReadError) ==>
        Remaining(handle.value) == [] || Leftover(stream) == mpegBuffer.data.Length
      ensures decoded == d0 + hs' && blocks == b0 + bs'
      ensures Progress(w0, start * nch, done' * nch, out[..], bs', Repeated(nch, |bs'|), runs', r.Err? || done' == wanted)
      ensures r.Ok? && done' < wanted ==> currentSample == |pcm.samples|
      ensures st' == State()
      ensures r.Err? ==> goal == Run(done', r, st', bs', hs', runs')
      ensures r.Ok? ==> goal == ReadRun(engine, st', wanted, done', fuel - 1, bs', hs', runs')
    {
      done', r, bs', hs', runs' := Round(out, nch, start, doneFrames, wanted, d0, b0, w0, bs, hs, runs);
      st' := State();
      ReadRunOn(engine, st, wanted, doneFrames, fuel, bs, hs, runs);
    }

    /** One round of mpegRead's outer loop: the next frame decode, then
        what the current block delivers. */
    method Round(out: array<int>, nch: nat, start: nat, doneFrames: nat, wanted: nat,
                 ghost d0: seq<Header>, ghost b0: seq<Pcm>, ghost w0: seq<int>,
                 ghost bs: seq<Pcm>, ghost hs: seq<Header>, ghost runs: seq<nat>)
      returns (done': nat, r: Result<Stop, Failure>, ghost bs': seq<Pcm>, ghost hs': seq<Header>, ghost runs': seq<nat>)
      requires Valid() && handle.Some? && Positioned() && 1 <= nch <= 2 && numChannels == nch
      requires start <= doneFrames < wanted && wanted * nch <= out.Length
      requires currentSample == |pcm.samples|
      requires decoded == d0 + hs && blocks == b0 + bs
      requires Progress(w0, start * nch, doneFrames * nch, out[..], bs, Repeated(nch, |bs|), runs, false)
      modifies this`stream, this`handle, this`header, this`pcm, this`currentSample, this`timer,
               this`decoded, this`blocks, mpegBuffer.data, out
      ensures Valid() && handle.Some? && Positioned()
      ensures doneFrames <= done' <= wanted && (r.Ok? ==> r == Ok(Satisfied))
      ensures r.Err? ==> done' == doneFrames
      ensures r.Err? ==> r.error == IoError || r.error == ReadError || r.error == UnrecoverableFrame
      ensures r == Err(ReadError) ==>
        Remaining(handle.value) == [] || Leftover(stream) == mpegBuffer.data.Length
      ensures decoded == d0 + hs' && blocks == b0 + bs'
      ensures Progress(w0, start * nch, done' * nch, out[..], bs', Repeated(nch, |bs'|), runs', r.Err? || done' == wanted)
      ensures r.Ok? && done' < wanted ==> currentSample == |pcm.samples|
      ensures var one := ReadRound(engine, old(State()), wanted, doneFrames);
        done' == one.total && r == one.verdict && State() == one.state
        && bs' == bs + one.bs && hs' == hs + one.hs && runs' == runs + one.runs
    {
      ghost var now := out[..];
      ghost var grew;
      var more;
      ghost var st := State();
      ghost var t := DecodeTurn(engine, st.feed, st.header);
      more, grew := NextFrame();
      DecodeTurnEnds(engine, st.feed, st.header);
      assert out[..] == now;
      ghost var moved := State();
      assert moved == Moved(st, t);
      assert more == FrameVerdict(t.turn);
      assert ReadRound(engine, st, wanted, doneFrames) == ReadServed(t, moved, wanted, doneFrames);
      if more.Fail? {
        return doneFrames, Err(more.error), bs, hs, runs;
      }
      done', bs', hs', runs' := Serve(out, nch, start, doneFrames, wanted, d0, b0, w0, bs, hs, runs, t);
      r := Ok(Satisfied);
    }

    /** The delivery half of a round, once the frame decode did not throw:
        Take, seen as the rest of the round. */
    method Serve(out: array<int>, nch: nat, start: nat, doneFrames: nat, wanted: nat,
                 ghost d0: seq<Header>, ghost b0: seq<Pcm>, ghost w0: seq<int>,
                 ghost bs: seq<Pcm>, ghost hs: seq<Header>, ghost runs: seq<nat>, ghost t: Step)
      returns (done': nat, ghost bs': seq<Pcm>, ghost hs': seq<Header>, ghost runs': seq<nat>)
      requires Valid() && handle.Some? && Positioned() && 1 <= nch <= 2 && numChannels == nch
      requires start <= doneFrames < wanted && wanted * nch <= out.Length
      requires FrameVerdict(t.turn) == Pass
      requires if t.turn.Got? then currentSample == 0 && pcm == t.turn.block && header == t.header
               else currentSample == |pcm.samples|
      requires t.turn.Got? ==> decoded == d0 + hs + [header] && blocks == b0 + bs + [pcm]
      requires !t.turn.Got? ==> decoded == d0 + hs && blocks == b0 + bs
      requires Progress(w0, start * nch, doneFrames * nch, out[..], bs, Repeated(nch, |bs|), runs, false)
      modifies out, this`currentSample
      ensures Valid() && handle.Some? && Positioned() && doneFrames <= done' <= wanted
      ensures decoded == d0 + hs' && blocks == b0 + bs'
      ensures Progress(w0, start * nch, done' * nch, out[..], bs', Repeated(nch, |bs'|), runs', done' == wanted)
      ensures done' < wanted ==> currentSample == |pcm.samples|
      ensures var o := ReadServed(t, old(State()), wanted, doneFrames);
        done' == o.total && o.verdict == Ok(Satisfied) && State() == o.state
        && bs' == bs + o.bs && hs' == hs + o.hs && runs' == runs + o.runs
    {
      ghost var o := ReadServed(t, State(), wanted, doneFrames);
      ghost var grown := if t.turn.Got? then ([pcm], [header]) else ([], []);
      assert Grown(t) == grown;
      ghost var run;
      done', bs', hs', runs', run := Take(out, nch, start, doneFrames, wanted, w0, bs, hs, runs, t.turn.Got?);
      assert o.total == done' && o.verdict == Ok(Satisfied) && o.state == State();
      assert o.bs == grown.0 && o.hs == grown.1 && o.runs == if t.turn.Got? then [run] else [];
      if t.turn.Got? {
        Regrouped(d0, hs, header);
        Regrouped(b0, bs, pcm);
      }
    }

    /** One delivery of mpegRead's outer loop after a frame decode: a new
        block (`grew`) delivers up to the wanted frames, one more run; the
        spent block delivers nothing. */
    method Take(out: array<int>, nch: nat, start: nat, doneFrames: nat, wanted: nat, ghost w0: seq<int>,
                ghost bs: seq<Pcm>, ghost hs: seq<Header>, ghost runs: seq<nat>, ghost grew: bool)
      returns (done': nat, ghost bs': seq<Pcm>, ghost hs': seq<Header>, ghost runs': seq<nat>, ghost run: nat)
      requires Positioned() && 1 <= nch <= 2 && numChannels == nch
      requires start <= doneFrames < wanted && wanted * nch <= out.Length
      requires if grew then currentSample == 0 else currentSample == |pcm.samples|
      requires Progress(w0, start * nch, doneFrames * nch, out[..], bs, Repeated(nch, |bs|), runs, false)
      modifies out, this`currentSample
      ensures Positioned() && doneFrames <= done' <= wanted
      ensures run == Min(wanted - doneFrames, |pcm.samples| - old(currentSample)) && done' == doneFrames + run
      ensures currentSample == old(currentSample) + run
      ensures bs' == (if grew then bs + [pcm] else bs) && hs' == (if grew then hs + [header] else hs)
      ensures runs' == runs + if grew then [run] else []
      ensures Progress(w0, start * nch, done' * nch, out[..], bs', Repeated(nch, |bs'|), runs', done' == wanted)
      ensures done' < wanted ==> currentSample == |pcm.samples|
    {
      ghost var before := out[..];
      FramesAdd(doneFrames, wanted - doneFrames, nch);
      var frames := Deliver(out, doneFrames * nch, wanted - doneFrames);
      done', run := doneFrames + frames, frames;
      if grew {
        bs', hs', runs' := bs + [pcm], hs + [header], runs + [frames];
      } else {
        bs', hs', runs' := bs, hs, runs;
      }
      Arithmetic.MulMonotone(done', wanted, nch);
      Dealt(w0, start, doneFrames, before, out[..], bs, runs, pcm, old(currentSample), nch, frames, grew,
            done' == wanted, done', bs', runs');
    }

    /** mpegRead(samplesToRead, buffer): stores clamped samples into `out`
        from index 0, channel by channel for each frame position, decoding
        new frames as the current block runs out. It writes whole frames
        covering the request (`written` values, past the request when the
        request is not a multiple of the channel count) and returns the
        request unless it throws (or `fuel` decode attempts are spent). The
        values are the rest of the block current on entry, then `runs[k]`
        frame positions of each block `bs[k]` decoded meanwhile, from the
        frame with header `hs[k]`; every block but the last is delivered
        whole. */
    method MpegRead(request: nat, out: array<int>, fuel: nat)
      returns (done: nat, r: Result<Stop, Failure>, ghost written: nat,
               ghost bs: seq<Pcm>, ghost hs: seq<Header>, ghost runs: seq<nat>)
      requires Valid() && handle.Some? && Positioned() && 1 <= numChannels <= 2
      requires FramesCovering(request, numChannels) * numChannels <= out.Length
      modifies this`stream, this`handle, this`header, this`pcm, this`currentSample, this`timer,
               this`decoded, this`blocks, mpegBuffer.data, out
      ensures Valid() && handle.Some? && Positioned()
      ensures r.Ok? ==> (r.value == Satisfied <==> done == request)
      ensures r.Err? ==> r.error == IoError || r.error == ReadError || r.error == UnrecoverableFrame
      ensures r == Err(ReadError) ==>
        Remaining(handle.value) == [] || Leftover(stream) == mpegBuffer.data.Length
      ensures done <= request && done <= written <= out.Length
      ensures r == Ok(Satisfied) ==> written == FramesCovering(request, numChannels) * numChannels
      ensures r != Ok(Satisfied) ==> done == written && done % numChannels == 0
      ensures forall i :: 0 <= i < written ==> -MadFOne <= out[i] < MadFOne
      ensures forall i :: written <= i < out.Length ==> out[i] == old(out[i])
      ensures decoded == old(decoded) + hs && blocks == old(blocks) + bs
      ensures Runs(bs, Repeated(numChannels, |bs|), runs) && Delivered(bs, runs, r.Err? || r == Ok(Satisfied))
      ensures var nch := numChannels as nat;
        var first := Min(FramesCovering(request, nch), |old(pcm).samples| - old(currentSample));
        out[..written] == Interleaved(old(pcm), old(currentSample) as nat, first, nch)
                          + Joined(bs, Repeated(nch, |bs|), runs)
      ensures var o := MpegReadOf(engine, old(State()), numChannels, request, fuel);
        written == o.total * numChannels && r == o.verdict && State() == o.state
        && bs == o.bs && hs == o.hs && runs == o.runs
    {
      var nch := numChannels as nat;
      var wanted := FramesCovering(request, nch);
      ghost var w0 := out[..];
      ghost var st := State();
      var frames := Deliver(out, 0, wanted);
      ghost var head := Interleaved(pcm, old(currentSample) as nat, frames, nch);
      InterleavedClamped(pcm, old(currentSample) as nat, frames, nch);
      assert MpegReadOf(engine, st, nch, request, fuel) == ReadRun(engine, State(), wanted, frames, fuel, [], [], []);
      done, r, written, bs, hs, runs := Finish(request, out, frames, wanted, fuel, w0, head);
      assert Repeated(nch, |bs|) == Repeated(numChannels, |bs|);
      assert out[..written] == head + Joined(bs, Repeated(nch, |bs|), runs);
    }

    /** The rest of mpegRead once the current block has delivered `frames`
        frame positions (`head`, over `w0`): the outer loop, then the
        count returned. */
    method Finish(request: nat, out: array<int>, frames: nat, wanted: nat, fuel: nat,
                  ghost w0: seq<int>, ghost head: seq<int>)
      returns (done: nat, r: Result<Stop, Failure>, ghost written: nat,
               ghost bs: seq<Pcm>, ghost hs: seq<Header>, ghost runs: seq<nat>)
      requires Valid() && handle.Some? && Positioned() && 1 <= numChannels <= 2
      requires wanted == FramesCovering(request, numChannels) && wanted * numChannels <= out.Length
      requires frames <= wanted && (frames < wanted ==> currentSample == |pcm.samples|)
      requires |head| == frames * numChannels && |w0| == out.Length && Clamped(head)
      requires out[..] == Spliced(w0, 0, head)
      modifies this`stream, this`handle, this`header, this`pcm, this`currentSample, this`timer,
               this`decoded, this`blocks, mpegBuffer.data, out
      ensures Valid() && handle.Some? && Positioned()
      ensures r.Ok? ==> (r.value == Satisfied <==> done == request)
      ensures r.Err? ==> r.error == IoError || r.error == ReadError || r.error == UnrecoverableFrame
      ensures r == Err(ReadError) ==>
        Remaining(handle.value) == [] || Leftover(stream) == mpegBuffer.data.Length
      ensures done <= request && done <= written <= out.Length
      ensures r == Ok(Satisfied) ==> written == wanted * numChannels
      ensures r != Ok(Satisfied) ==> done == written && done % numChannels == 0
      ensures forall i :: 0 <= i < written ==> -MadFOne <= out[i] < MadFOne
      ensures forall i :: written <= i < out.Length ==> out[i] == w0[i]
      ensures decoded == old(decoded) + hs && blocks == old(blocks) + bs
      ensures Runs(bs, Repeated(numChannels, |bs|), runs) && Delivered(bs, runs, r.Err? || r == Ok(Satisfied))
      ensures out[..written] == head + Joined(bs, Repeated(numChannels, |bs|), runs)
      ensures var o := ReadRun(engine, old(State()), wanted, frames, fuel, [], [], []);
        written == o.total * numChannels && r == o.verdict && State() == o.state
        && bs == o.bs && hs == o.hs && runs == o.runs
    {
      var nch := numChannels as nat;
      var doneFrames;
      doneFrames, r, bs, hs, runs := Fill(out, frames, wanted, fuel);
      written := doneFrames * nch;
      ProgressAfter(w0, head, out[..], written, bs, Repeated(nch, |bs|), runs, r.Err? || doneFrames == wanted);
      CoveringBounds(request, nch, doneFrames);
      done := if r == Ok(Satisfied) then request else doneFrames * nch;
    }

    /** load(buffer): the buffer takes the file's rate and channel count and
        is resized to `frames` frames (the rounding of the signal length to
        frames is given), then filled by mpegRead. Any exception leaves the
        buffer empty. */
    method Load(audio: AudioBufferModel.AudioBuffer, frames: nat, fuel: nat) returns (r: Outcome<Failure>)
      requires Readable() && Valid() && Positioned() && 1 <= numChannels <= 2 && audio.Valid()
      modifies this`stream, this`handle, this`header, this`pcm, this`currentSample, this`timer,
               this`decoded, this`blocks, this`numFrames, mpegBuffer.data, audio, audio.samples
      ensures Valid() && Positioned() && numFrames == frames
      ensures audio.sampleRate == sampleRate && audio.numChannels == numChannels
      ensures r.Fail? ==> r.error == IoError || r.error == ReadError || r.error == UnrecoverableFrame
                          || r.error == StepBoundSpent
      ensures r.Fail? ==> audio.samples.data[..] == [] && audio.numFrames == 0
      ensures r.Pass? ==> audio.Size() == frames * numChannels && audio.numFrames == frames
      ensures r.Pass? ==> audio.HasData() == (frames > 0)
      ensures r.Pass? ==> forall i :: 0 <= i < audio.Size() ==> -MadFOne <= audio.samples.data[i] < MadFOne
    {
      audio.SetSampleRate(sampleRate);
      audio.SetNumChannels(numChannels);
      numFrames := frames;
      var numFloats := frames * numChannels;
      audio.Resize(numFloats);
      assert audio.numFrames == frames by {
        assert numFloats / numChannels == frames by {
          DivModOf(frames, numChannels as nat, 0);
        }
      }
      if audio.samples.data.Length == numFloats {
        assert numFloats % numChannels == 0 by {
          DivModOf(frames, numChannels as nat, 0);
        }
        assert FramesCovering(numFloats, numChannels) == frames by {
          DivModOf(frames, numChannels as nat, 0);
        }
        r := Fetch(audio, numFloats, fuel);
      } else {
        r := Pass;
      }
    }

    /** load's read: mpegRead into the resized samples; an exception (or
        spent fuel) empties them. */
    method Fetch(audio: AudioBufferModel.AudioBuffer, numFloats: nat, fuel: nat) returns (r: Outcome<Failure>)
      requires Valid() && handle.Some? && Positioned() && 1 <= numChannels <= 2 && audio.Valid()
      requires audio.samples.data.Length == numFloats
      requires FramesCovering(numFloats, numChannels) * numChannels == numFloats
      modifies this`stream, this`handle, this`header, this`pcm, this`currentSample, this`timer,
               this`decoded, this`blocks, mpegBuffer.data, audio`numFrames, audio.samples, audio.samples.data
      ensures Valid() && Positioned()
      ensures r.Fail? ==> r.error == IoError || r.error == ReadError || r.error == UnrecoverableFrame
                          || r.error == StepBoundSpent
      ensures r.Fail? ==> audio.samples.data[..] == [] && audio.numFrames == 0
      ensures r.Pass? ==> audio.samples.data == old(audio.samples.data) && audio.numFrames == old(audio.numFrames)
      ensures r.Pass? ==> forall i :: 0 <= i < numFloats ==> -MadFOne <= audio.samples.data[i] < MadFOne
    {
      var done, read, _, _, _, _ := MpegRead(numFloats, audio.samples.data, fuel);
      if read.Err? || read.value == StepBound {
        audio.Resize(0);
        return Fail(if read.Err? then read.error else StepBoundSpent);
      }
      r := Pass;
    }
  }
}
