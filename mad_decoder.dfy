/** MadDecoder: a libmad front end that reads an MPEG audio stream from an
    already opened file into a caller's sample buffer. It owns the byte
    window (decodeBuffer_), libmad's stream, frame and synth state, a frame
    cursor into the last synthesised block and a running timer. At end of
    file it returns what it has; it throws on read errors, on an unknown
    channel mode and on unrecoverable frame errors. */
module MadDecoderModel {
  import opened Wrappers
  import opened MadEngine
  import opened MadStream
  import opened MadLoop
  import DurationScan
  import BufferSpec

  /** The exceptions MadDecoder throws: strerror(errno) after a failed
      read, "Unknown channel mode", "No valid MP3 frame found" and
      "unrecoverable frame level error"; RequestUnderflow stands where the
      source's size_t sample count would wrap below zero, StepBoundSpent
      where the step bound ran out before a frame decoded. */
  datatype Failure = IoError | UnknownChannelMode | NoValidFrame | UnrecoverableFrame
                   | RequestUnderflow | StepBoundSpent

  /** How a pass of start's sync loop ends. */
  datatype Sync = Locked(block: Pcm) | Again | AtEnd | Broken(failure: Failure)

  /** Why decode returned. */
  datatype Stop = Satisfied | EndOfStream | StepBound

  /** What readMpgFile returns for each way a refill ends. */
  function RefillVerdict(k: Refilling): Result<bool, Failure> {
    match k
    case DeviceError => Err(IoError)
    case NothingRead => Ok(false)
    case MoreBytes => Ok(true)
  }

  /** How start's sync loop reports each way a pass ends. */
  function SyncVerdict(t: Turn): Sync {
    match t
    case Got(block) => Locked(block)
    case Retry => Again
    case NoInput => AtEnd
    case DeviceFault => Broken(IoError)
    case Fatal => Broken(UnrecoverableFrame)
  }

  /** What start makes of the sync loop's end: a frame, or "No valid MP3
      frame found" after a read of nothing, a read error, or spent fuel. */
  function StartVerdict(t: Turn): Outcome<Failure> {
    match t
    case Got(_) => Pass
    case NoInput => Fail(NoValidFrame)
    case DeviceFault => Fail(IoError)
    case Retry => Fail(StepBoundSpent)
    case Fatal => Fail(UnrecoverableFrame)
  }

  /** What the frame decode of decode yields: go on (Ok(true)), end of
      file (Ok(false)), or the exception. */
  function DecodeVerdict(t: Turn): Result<bool, Failure> {
    match t
    case DeviceFault => Err(IoError)
    case NoInput => Ok(false)
    case Fatal => Err(UnrecoverableFrame)
    case _ => Ok(true)
  }

  /** What a delivery yields: the values written and the frame positions
      they fill. */
  datatype Portion = Portion(values: nat, frames: nat)

  /** What one inner delivery of decode makes of the block `p` from frame
      position `cursor`, under header `h`, for `pending` values: the
      values delivered (whole frames, at most what is pending and what the
      block has left), or the exception for an unknown channel mode or a
      count that would wrap below zero. */
  function Delivery(h: Header, p: Pcm, cursor: nat, pending: nat): (r: Result<Portion, Failure>)
    requires cursor <= |p.samples|
    ensures r.Ok? ==> r.value.values <= pending && cursor + r.value.frames <= |p.samples|
    ensures r.Err? ==> (r.error == UnknownChannelMode <==> ChannelCount(h.mode).None?)
    ensures r.Err? ==> r.error == UnknownChannelMode || r.error == RequestUnderflow
  {
    var left := |p.samples| - cursor;
    if !(ModeSingleChannel <= h.mode <= ModeStereo) then Err(UnknownChannelMode)
    else if h.mode == ModeSingleChannel then
      var share := Min(pending, left);
      Ok(Portion(share, share))
    else
      var share := Min(pending, 2 * left);
      if share % 2 != 0 then Err(RequestUnderflow) else Ok(Portion(share, share / 2))
  }

  /** Delivery is the inner loops' count for any channel count: it fails
      exactly on an unknown mode or on a share that is not whole frames,
      and otherwise delivers the share, in whole frames. */
  lemma DeliveryShares(h: Header, p: Pcm, cursor: nat, pending: nat)
    requires cursor <= |p.samples|
    ensures var r := Delivery(h, p, cursor, pending);
      (r.Ok? <==> (ChannelCount(h.mode).Some? && Share(p, cursor, Width(h), pending) % Width(h) == 0))
      && (r.Ok? ==> 1 <= Width(h) && r.value.values == Share(p, cursor, Width(h), pending)
                    && r.value.values == r.value.frames * Width(h))
  {
  }


  /** What decode's rounds produce. */
  type Decoding = Run<Result<Stop, Failure>>

  /** One round of decode's outer loop from `st`, with `total` of
      `request` values delivered: the frame decode, then, unless it ended
      decode, what the current block delivers. */
  ghost function RoundOf(e: Engine, st: Snapshot, request: nat, total: nat): (o: Decoding)
    requires Sound(st) && total <= request
    ensures Sound(o.state) && total <= o.total <= request
  {
    var t := DecodeTurn(e, st.feed, st.header);
    Served(t, Moved(st, t), request, total)
  }

  ghost function Served(t: Step, moved: Snapshot, request: nat, total: nat): (o: Decoding)
    requires Sound(moved) && total <= request
    ensures Sound(o.state) && total <= o.total <= request
  {
    var grown := Grown(t);
    match DecodeVerdict(t.turn)
    case Err(x) => Run(total, Err(x), moved, [], [], [])
    case Ok(more) =>
      if !more then Run(total, Ok(EndOfStream), moved, [], [], [])
      else
        var d := Delivery(moved.header, moved.pcm, moved.cursor, request - total);
        var run := if d.Ok? then d.value.frames else 0;
        var runs := if t.turn.Got? then [run] else [];
        if d.Err? then Run(total, Err(d.error), moved, grown.0, grown.1, runs)
        else Run(total + d.value.values, Ok(Satisfied), moved.(cursor := moved.cursor + run), grown.0, grown.1, runs)
  }

  /** decode's outer loop from `st` with `total` of `request` values
      delivered and the blocks `bs`, headers `hs` and runs `runs` recorded
      so far, one unit of `fuel` per round: rounds until the request is
      met or a round ends decode; StepBound when the fuel ran out first. */
  ghost function DecodeRun(e: Engine, st: Snapshot, request: nat, total: nat, fuel: nat,
                           bs: seq<Pcm>, hs: seq<Header>, runs: seq<nat>): (o: Decoding)
    requires Sound(st) && total <= request
    ensures Sound(o.state) && total <= o.total <= request
    decreases fuel, 2
  {
    if total == request then Run(total, Ok(Satisfied), st, bs, hs, runs)
    else Fueled(e, st, request, total, fuel, bs, hs, runs)
  }

  /** A pass of the outer loop with the request still short: StepBound
      once the fuel is spent, otherwise a round. */
  ghost function Fueled(e: Engine, st: Snapshot, request: nat, total: nat, fuel: nat,
                        bs: seq<Pcm>, hs: seq<Header>, runs: seq<nat>): (o: Decoding)
    requires Sound(st) && total < request
    ensures Sound(o.state) && total <= o.total <= request
    decreases fuel, 1
  {
    if fuel == 0 then Run(total, Ok(StepBound), st, bs, hs, runs)
    else AfterRound(e, st, request, total, fuel - 1, bs, hs, runs)
  }

  /** The outer loop from a round at `st`: over with its blocks recorded
      if it ended decode, otherwise the rounds from where it left off. */
  ghost function AfterRound(e: Engine, st: Snapshot, request: nat, total: nat, fuel: nat,
                            bs: seq<Pcm>, hs: seq<Header>, runs: seq<nat>): (o: Decoding)
    requires Sound(st) && total < request
    ensures Sound(o.state) && total <= o.total <= request
    decreases fuel, 3
  {
    var one := RoundOf(e, st, request, total);
    if one.verdict != Ok(Satisfied) then Prefixed(bs, hs, runs, one)
    else DecodeRun(e, one.state, request, one.total, fuel, bs + one.bs, hs + one.hs, runs + one.runs)
  }

  /** decode(request) from `st`: the rest of the current block, then the
      outer loop. */
  ghost function DecodeOf(e: Engine, st: Snapshot, request: nat, fuel: nat): (o: Decoding)
    requires Sound(st)
    ensures Sound(o.state) && o.total <= request
  {
    match Delivery(st.header, st.pcm, st.cursor, request)
    case Err(x) => Run(0, Err(x), st, [], [], [])
    case Ok(n) => DecodeRun(e, st.(cursor := st.cursor + n.frames), request, n.values, fuel, [], [], [])
  }

  /** How a round can end: it meets the request exactly when it is
      Satisfied and delivers the whole request; end of file leaves the
      shortage and an exhausted input; an unrecoverable frame error leaves
      libmad's error unrecoverable; a read error needs a faulty file; an
      unknown channel mode is that of the header left. */
  lemma RoundEnds(e: Engine, st: Snapshot, request: nat, total: nat)
    requires Sound(st) && total < request
    ensures var o := RoundOf(e, st, request, total);
      && (o.verdict != Ok(Satisfied) ==> o.total == total)
      && (o.verdict == Ok(EndOfStream) ==> o.state.feed.stream.error == BufLen && Exhausted(o.state.feed))
      && (o.verdict == Err(UnrecoverableFrame) ==> o.state.feed.stream.error == Unrecoverable)
      && (o.verdict == Err(IoError) ==> o.state.feed.src.faulty)
      && (o.verdict == Err(UnknownChannelMode) ==> ChannelCount(o.state.header.mode).None?)
      && |o.bs| == |o.hs| == |o.runs| <= 1
      && (o.verdict == Ok(Satisfied) || o.verdict == Ok(EndOfStream) || o.verdict.Err?)
  {
    DecodeTurnEnds(e, st.feed, st.header);
  }

  /** How decode's outer loop can end: Satisfied exactly when the request
      is met; end of file only with the input exhausted; the exceptions as
      in a round; one run and one header for each block decoded, after
      those recorded before. */
  lemma {:induction false} DecodeRunEnds(e: Engine, st: Snapshot, request: nat, total: nat, fuel: nat,
                                         bs: seq<Pcm>, hs: seq<Header>, runs: seq<nat>)
    requires Sound(st) && total <= request && |bs| == |hs| == |runs|
    ensures var o := DecodeRun(e, st, request, total, fuel, bs, hs, runs);
      && (o.verdict == Ok(Satisfied) <==> o.total == request)
      && (o.verdict == Ok(EndOfStream) ==> o.state.feed.stream.error == BufLen && Exhausted(o.state.feed))
      && (o.verdict == Err(UnrecoverableFrame) ==> o.state.feed.stream.error == Unrecoverable)
      && (o.verdict == Err(IoError) ==> o.state.feed.src.faulty)
      && (o.verdict == Err(UnknownChannelMode) ==> ChannelCount(o.state.header.mode).None?)
      && |o.bs| == |o.hs| == |o.runs|
      && bs <= o.bs && hs <= o.hs && runs <= o.runs
    decreases fuel, 0
  {
    if total < request && fuel > 0 {
      AfterRoundEnds(e, st, request, total, fuel - 1, bs, hs, runs);
    }
  }

  /** The same for the loop from a round at `total`. */
  lemma {:induction false} AfterRoundEnds(e: Engine, st: Snapshot, request: nat, total: nat, fuel: nat,
                                          bs: seq<Pcm>, hs: seq<Header>, runs: seq<nat>)
    requires Sound(st) && total < request && |bs| == |hs| == |runs|
    ensures var o := AfterRound(e, st, request, total, fuel, bs, hs, runs);
      && (o.verdict == Ok(Satisfied) <==> o.total == request)
      && (o.verdict == Ok(EndOfStream) ==> o.state.feed.stream.error == BufLen && Exhausted(o.state.feed))
      && (o.verdict == Err(UnrecoverableFrame) ==> o.state.feed.stream.error == Unrecoverable)
      && (o.verdict == Err(IoError) ==> o.state.feed.src.faulty)
      && (o.verdict == Err(UnknownChannelMode) ==> ChannelCount(o.state.header.mode).None?)
      && |o.bs| == |o.hs| == |o.runs|
      && bs <= o.bs && hs <= o.hs && runs <= o.runs
    decreases fuel, 1
  {
    RoundEnds(e, st, request, total);
    var one := RoundOf(e, st, request, total);
    if one.verdict == Ok(Satisfied) {
      DecodeRunEnds(e, one.state, request, one.total, fuel, bs + one.bs, hs + one.hs, runs + one.runs);
    }
  }

  /** The fuel bound only cuts decode short: once a run ends in anything
      but StepBound, more fuel ends it the same way. */
  lemma {:induction false} DecodeRunFuel(e: Engine, st: Snapshot, request: nat, total: nat, fuel: nat, more: nat,
                                         bs: seq<Pcm>, hs: seq<Header>, runs: seq<nat>)
    requires Sound(st) && total <= request && fuel <= more
    requires DecodeRun(e, st, request, total, fuel, bs, hs, runs).verdict != Ok(StepBound)
    ensures DecodeRun(e, st, request, total, more, bs, hs, runs) == DecodeRun(e, st, request, total, fuel, bs, hs, runs)
    decreases fuel, 0
  {
    if total < request {
      AfterRoundFuel(e, st, request, total, fuel - 1, more - 1, bs, hs, runs);
    }
  }

  /** The same for the loop from a round. */
  lemma {:induction false} AfterRoundFuel(e: Engine, st: Snapshot, request: nat, total: nat, fuel: nat, more: nat,
                                          bs: seq<Pcm>, hs: seq<Header>, runs: seq<nat>)
    requires Sound(st) && total < request && fuel <= more
    requires AfterRound(e, st, request, total, fuel, bs, hs, runs).verdict != Ok(StepBound)
    ensures AfterRound(e, st, request, total, more, bs, hs, runs) == AfterRound(e, st, request, total, fuel, bs, hs, runs)
    decreases fuel, 1
  {
    var one := RoundOf(e, st, request, total);
    if one.verdict == Ok(Satisfied) {
      DecodeRunFuel(e, one.state, request, one.total, fuel, more, bs + one.bs, hs + one.hs, runs + one.runs);
    }
  }

  /** The delivery half of a round, from what one delivery reports. */
  lemma ServedBy(t: Step, moved: Snapshot, request: nat, total: nat, total': nat, r: Result<Stop, Failure>, run: nat,
                 bs: seq<Pcm>, hs: seq<Header>, runs: seq<nat>, bs': seq<Pcm>, hs': seq<Header>, runs': seq<nat>)
    requires Sound(moved) && total <= request && DecodeVerdict(t.turn) == Ok(true)
    requires t.turn.Got? ==> moved.pcm == t.turn.block && moved.header == t.header
    requires total <= total'
    requires Delivery(moved.header, moved.pcm, moved.cursor, request - total)
          == if r.Ok? then Ok(Portion(total' - total, run)) else Err(r.error)
    requires r.Ok? ==> r == Ok(Satisfied)
    requires r.Err? ==> run == 0 && total' == total
    requires bs' == (if t.turn.Got? then bs + [moved.pcm] else bs)
    requires hs' == (if t.turn.Got? then hs + [moved.header] else hs)
    requires runs' == runs + if t.turn.Got? then [run] else []
    ensures moved.cursor + run <= |moved.pcm.samples|
    ensures var o := Served(t, moved, request, total);
      total' == o.total && r == o.verdict && moved.(cursor := moved.cursor + run) == o.state
      && bs' == bs + o.bs && hs' == hs + o.hs && runs' == runs + o.runs
  {
  }

  /** One round of decode's outer loop, seen from the run it starts. */
  lemma RunOn(e: Engine, st: Snapshot, request: nat, total: nat, fuel: nat,
              bs: seq<Pcm>, hs: seq<Header>, runs: seq<nat>)
    requires Sound(st) && total < request && fuel > 0
    ensures var one := RoundOf(e, st, request, total);
      DecodeRun(e, st, request, total, fuel, bs, hs, runs)
      == if one.verdict != Ok(Satisfied) then Prefixed(bs, hs, runs, one)
         else DecodeRun(e, one.state, request, one.total, fuel - 1, bs + one.bs, hs + one.hs, runs + one.runs)
  {
    assert DecodeRun(e, st, request, total, fuel, bs, hs, runs) == AfterRound(e, st, request, total, fuel - 1, bs, hs, runs);
  }

  /** ProgressStep for decode's blocks, whose channel counts are the
      widths of their headers. */
  lemma Took(w0: seq<int>, start: nat, total: nat, before: seq<int>, after: seq<int>,
             bs: seq<Pcm>, hs: seq<Header>, runs: seq<nat>,
             b: Pcm, h: Header, run: nat, added: seq<int>, grew: bool, partial: bool, total': nat)
    requires Progress(w0, start, total, before, bs, Widths(hs), runs, false)
    requires total + |added| <= |before| && after == Spliced(before, total, added)
    requires if grew then Width(h) <= 2 && run <= |b.samples| && added == Interleaved(b, 0, run, Width(h))
             else added == []
    requires grew && run < |b.samples| ==> partial
    requires total' == total + |added|
    ensures Progress(w0, start, total', after, if grew then bs + [b] else bs,
                     Widths(if grew then hs + [h] else hs), if grew then runs + [run] else runs, partial)
  {
    if grew {
      WidthsSnoc(hs, h);
    }
    ProgressStep(w0, start, total, before, after, bs, Widths(hs), runs, b, Width(h), run, added, grew, partial,
                 total', if grew then bs + [b] else bs, Widths(if grew then hs + [h] else hs),
                 if grew then runs + [run] else runs);
  }

  class MadDecoder {
    /** libmad */
    const engine: Engine
    /** handle_ */
    var src: Source
    /** decodeBuffer_ and bufferSize_ */
    var buffer: array<byte>
    var bufferSize: nat
    /** madStream_, madFrame_.header, madSynth_.pcm */
    var stream: Stream
    var header: Header
    var pcm: Pcm
    /** currentFrame_: the next frame position of `pcm` to deliver */
    var currentFrame: nat
    /** madTimer_ */
    var timer: nat
    /** signalLength_ */
    var signalLength: DurationScan.Estimate
    /** The headers of the frames decoded since start, in order, and the
        blocks synthesised from them. */
    ghost var decoded: seq<Header>
    ghost var blocks: seq<Pcm>

    ghost predicate Valid()
      reads this
    {
      buffer.Length == bufferSize && Within(stream, buffer.Length)
      && currentFrame <= |pcm.samples| && timer == TotalDuration(decoded)
      && |blocks| == |decoded|
    }

    /** What the decoder holds as values: its input, and its state as
        decode sees it. */
    ghost function Input(): Feed
      reads this`buffer, this`stream, this`src, buffer
    {
      Feed(buffer[..], stream, src)
    }

    ghost function State(): Snapshot
      reads this`buffer, this`stream, this`src, this`header, this`pcm, this`currentFrame, buffer
    {
      Snapshot(Input(), header, pcm, currentFrame)
    }

    /** The constructor: no file, an empty window, cursor and length 0. */
    constructor (e: Engine)
      ensures Valid() && engine == e
      ensures bufferSize == 0 && currentFrame == 0 && signalLength == DurationScan.Measured(0)
      ensures decoded == [] && blocks == [] && stream == Unbuffered
    {
      engine := e;
      src := Source([], 0, false);
      buffer := new byte[0];
      bufferSize := 0;
      stream := Unbuffered;
      header := NoHeader;
      pcm := NoPcm;
      currentFrame := 0;
      timer := 0;
      signalLength := DurationScan.Measured(0);
      decoded := [];
      blocks := [];
    }

    /** getNumChannels, from the mode of the current frame header. */
    function NumChannels(): (r: Result<nat, Failure>)
      reads this
      ensures r.Ok? <==> ModeSingleChannel <= header.mode <= ModeStereo
      ensures r.Ok? ==> r.value == (if header.mode == ModeSingleChannel then 1 else 2)
      ensures r.Err? ==> r.error == UnknownChannelMode
    {
      match ChannelCount(header.mode)
      case Some(n) => Ok(n)
      case None => Err(UnknownChannelMode)
    }

    /** readMpgFile: carries the unconsumed tail to the front of the window
        and tops it up from the file. Returns false, without re-pointing
        the stream, when no byte was read; throws on a device error. */
    method ReadMpgFile() returns (r: Result<bool, Failure>)
      requires Valid()
      modifies this`stream, this`src, buffer
      ensures Valid()
      ensures var k := Reread(old(Input()));
        r == RefillVerdict(k.0) && Input() == k.1
    {
      ghost var f := Input();
      var leftover := stream.bufEnd - stream.nextFrame;
      var bytesRead, after := Refill(buffer, stream, src);
      src := after;
      ghost var k := Reread(f);
      assert k.1.window == buffer[..] && k.1.src == src;
      if bytesRead != bufferSize && src.faulty {
        r := Err(IoError);
        assert k.0 == DeviceError;
      } else if bytesRead == 0 {
        r := Ok(false);
        assert k.0 == NothingRead;
      } else {
        stream := Rebuffer(stream, 0, bytesRead + leftover).(error := NoError);
        r := Ok(true);
        assert k.0 == MoreBytes;
      }
    }

    /** consumeId3Tag: skips a tag at this_frame (measured from next_frame),
        always resyncs, and reports whether a tag was skipped. */
    method ConsumeId3Tag() returns (skipped: bool)
      requires Valid()
      modifies this`stream
      ensures Valid()
      ensures var tag := Id3TagAt(old(stream));
        skipped == (tag > 0)
        && stream == Synced(engine, buffer[..], if tag > 0 then Skip(old(stream), tag) else old(stream))
      ensures stream == TagResynced(engine, buffer[..], old(stream))
    {
      skipped, stream := ConsumeTag(engine, buffer[..], stream);
    }

    ghost function Id3TagAt(s: Stream): nat
      reads this, buffer
      requires Ordered(s) && s.bufEnd <= buffer.Length
    {
      Id3.TagSize(TagWindow(buffer[..], s))
    }

    /** start: sizes the window, estimates the duration (which rewinds the
        file), fills the window and synchronises on a first frame. */
    method Start(file: Source, size: nat, fuel: nat) returns (r: Outcome<Failure>, ghost loaded: seq<byte>)
      modifies this
      ensures Valid() && fresh(buffer) && bufferSize == size
      ensures signalLength == DurationScan.EstimateOf(DurationScan.ScanRun(engine, BufferSpec.Filled(0, size),
                                                                          DurationScan.Initial(file), fuel))
      ensures r.Pass? ==> (currentFrame == 0 && stream.error == NoError
        && decoded == [header] && blocks == [pcm] && timer == header.duration)
      ensures r == Fail(NoValidFrame) ==> Remaining(src) == [] || Leftover(stream) == bufferSize
      ensures var n := ReadCount(Rewound(file), size);
        |loaded| == size && loaded[..n] == Taken(Rewound(file), size)
        && (ReadFails(Rewound(file), size) ==> r == Fail(IoError))
        && (!ReadFails(Rewound(file), size) ==>
              var o := SyncRun(engine, Feed(loaded, Rebuffer(Unbuffered, 0, n).(error := NoError), AfterRead(Rewound(file), size)),
                               NoHeader, fuel);
              Input() == o.feed && header == o.header && r == StartVerdict(o.turn)
              && (o.turn.Got? ==> pcm == o.turn.block))
    {
      r := Prime(file, size, fuel);
      loaded := buffer[..];
      if r.Fail? {
        return;
      }
      r := Synchronise(fuel);
    }

    /** The first half of start: a fresh window of `size` bytes, the
        duration estimate, reset decoder state and the first read. The
        estimate is getDuration's over the window as it was allocated. */
    method Prime(file: Source, size: nat, fuel: nat) returns (r: Outcome<Failure>)
      modifies this
      ensures Valid() && fresh(buffer) && bufferSize == size
      ensures r == (if ReadFails(Rewound(file), size) then Fail(IoError) else Pass)
      ensures decoded == [] && blocks == [] && currentFrame == 0 && timer == 0 && stream.error == NoError
      ensures header == NoHeader
      ensures signalLength == DurationScan.EstimateOf(DurationScan.ScanRun(engine, BufferSpec.Filled(0, size),
                                                                          DurationScan.Initial(file), fuel))
      ensures r.Pass? ==> var n := ReadCount(Rewound(file), size);
        stream == Rebuffer(Unbuffered, 0, n).(error := NoError)
        && src == AfterRead(Rewound(file), size)
        && buffer[..n] == Taken(Rewound(file), size)
    {
      var window := NewWindow(size);
      var estimate, bytesRead, after := DurationScan.ScanAndLoad(engine, window, file, true, fuel);
      r := Install(window, estimate, bytesRead, after);
    }

    /** The rest of start's set-up: the window, the estimate and the file
        taken over, the decoder state reset, and the stream pointed at the
        bytes read unless the read failed. */
    method Install(window: array<byte>, estimate: DurationScan.Estimate, bytesRead: nat, after: Source)
      returns (r: Outcome<Failure>)
      requires bytesRead <= window.Length
      modifies this
      ensures Valid() && buffer == window && bufferSize == window.Length
      ensures signalLength == estimate && src == after
      ensures decoded == [] && blocks == [] && currentFrame == 0 && timer == 0 && stream.error == NoError
      ensures header == NoHeader
      ensures r == (if bytesRead != window.Length && after.faulty then Fail(IoError) else Pass)
      ensures r.Pass? ==> stream == Rebuffer(Unbuffered, 0, bytesRead).(error := NoError)
    {
      var next := Unbuffered;
      r := Fail(IoError);
      if !(bytesRead != window.Length && after.faulty) {
        next := Rebuffer(Unbuffered, 0, bytesRead).(error := NoError);
        r := Pass;
      }
      assert Within(next, window.Length) && next.error == NoError;
      buffer, bufferSize, signalLength, src, stream := window, window.Length, estimate, after, next;
      header, pcm, currentFrame, timer, decoded, blocks := NoHeader, NoPcm, 0, 0, [], [];
    }

    /** decodeBuffer_ cleared and resized to `size` bytes: a new window,
        all zero as calloc delivers it. */
    static method NewWindow(size: nat) returns (w: array<byte>)
      ensures fresh(w) && w.Length == size && w[..] == BufferSpec.Filled(0, size)
    {
      w := new byte[size](_ => 0);
    }

    /** The sync loop of start: decode until a frame decodes; on BufLen
        refill, and give up at end of file; otherwise skip any tag, resync
        and clear the error. Throws "No valid MP3 frame found" when the
        loop ends in error. */
    method Synchronise(fuel: nat) returns (r: Outcome<Failure>)
      requires Valid() && decoded == [] && currentFrame == 0 && timer == 0
      requires stream.error == NoError
      modifies this`stream, this`src, this`header, this`pcm, this`timer, this`decoded, this`blocks, buffer
      ensures Valid()
      ensures r.Pass? ==> (currentFrame == 0 && stream.error == NoError
        && decoded == [header] && blocks == [pcm] && timer == header.duration)
      ensures r == Fail(NoValidFrame) ==> Remaining(src) == [] || Leftover(stream) == bufferSize
      ensures var o := SyncRun(engine, old(Input()), old(header), fuel);
        Input() == o.feed && header == o.header && r == StartVerdict(o.turn)
        && (o.turn.Got? ==> pcm == o.turn.block)
    {
      var v := SyncLoop(fuel);
      match v
      case Broken(f) =>
        return Fail(f);
      case AtEnd =>
        return Fail(NoValidFrame);
      case Again =>
        return Fail(StepBoundSpent);
      case Locked(block) =>
        timer := timer + header.duration;
        decoded := decoded + [header];
        pcm := block;
        blocks := blocks + [pcm];
        return Pass;
    }

    /** The sync loop of start / open: passes until one decodes a frame,
        reaches end of file or fails to read, or the fuel is spent. */
    method SyncLoop(fuel: nat) returns (v: Sync)
      requires Valid() && stream.error == NoError
      modifies this`stream, this`src, this`header, buffer
      ensures Valid()
      ensures v.Again? || v.Locked? ==> stream.error == NoError
      ensures v.AtEnd? ==> stream.error != NoError && (Remaining(src) == [] || Leftover(stream) == bufferSize)
      ensures v.Broken? ==> v.failure == IoError
      ensures var o := SyncRun(engine, old(Input()), old(header), fuel);
        Input() == o.feed && header == o.header && SyncVerdict(o.turn) == v
    {
      ghost var run := SyncRun(engine, Input(), header, fuel);
      var steps := fuel;
      v := Again;
      while steps > 0 && v.Again?
        invariant Valid()
        invariant v.Again? || v.Locked? ==> stream.error == NoError
        invariant v.AtEnd? ==> stream.error != NoError && (Remaining(src) == [] || Leftover(stream) == bufferSize)
        invariant v.Broken? ==> v.failure == IoError
        invariant v.Again? ==> SyncRun(engine, Input(), header, steps) == run
        invariant !v.Again? ==> Input() == run.feed && header == run.header && SyncVerdict(run.turn) == v
        decreases steps
      {
        v := SyncPass(steps, run);
        steps := steps - 1;
      }
    }

    /** A pass of the sync loop as the loop sees it: the run `goal` with
        `fuel` passes left ends with this pass unless it sends the loop
        round, and otherwise is the run from here with one pass fewer. */
    method SyncPass(ghost fuel: nat, ghost goal: Step) returns (v: Sync)
      requires Valid() && stream.error == NoError
      requires fuel > 0 && goal == SyncRun(engine, Input(), header, fuel)
      modifies this`stream, this`src, this`header, buffer
      ensures Valid()
      ensures v.Again? || v.Locked? ==> stream.error == NoError
      ensures v.AtEnd? ==> stream.error != NoError && (Remaining(src) == [] || Leftover(stream) == bufferSize)
      ensures v.Broken? ==> v.failure == IoError
      ensures v.Again? ==> goal == SyncRun(engine, Input(), header, fuel - 1)
      ensures !v.Again? ==> Input() == goal.feed && header == goal.header && SyncVerdict(goal.turn) == v
    {
      SyncOn(engine, Input(), header, fuel);
      v := SyncStep();
    }

    /** One pass of the sync loop: a frame decoded, the loop to go on
        (after a refill, or after a tag skip and resync), end of file while
        the window waits for data, or a read error. */
    method SyncStep() returns (v: Sync)
      requires Valid() && stream.error == NoError
      modifies this`stream, this`src, this`header, buffer
      ensures Valid()
      ensures v.Again? || v.Locked? ==> stream.error == NoError
      ensures v.AtEnd? ==> stream.error != NoError && (Remaining(src) == [] || Leftover(stream) == bufferSize)
      ensures v.Broken? ==> v.failure == IoError
      ensures var t := SyncTurn(engine, old(Input()), old(header));
        Input() == t.feed && header == t.header && v == SyncVerdict(t.turn)
    {
      var d := engine.frameDecode(buffer[..], stream, header);
      header := d.header;
      stream := After(stream, d);
      if d.status == NoError {
        return Locked(d.pcm);
      }
      if stream.error == BufLen {
        var more := Replenish();
        if more.Err? {
          return Broken(more.error);
        }
        if !more.value {
          return AtEnd;
        }
        return Again;
      }
      var _ := ConsumeId3Tag();
      stream := stream.(error := NoError);
      return Again;
    }

    /** One pass of decode's inner loops: the samples the current block
        still holds, at most `pending`, written to `out` from `at` channel
        by channel for each frame position, with the cursor advanced past
        them. Throws on an unknown channel mode; stops where the source's
        sample count would wrap below zero. */
    method Deliver(out: array<int>, at: nat, pending: nat) returns (delivered: nat, r: Outcome<Failure>)
      requires Valid() && at + pending <= out.Length
      modifies out, this`currentFrame
      ensures Valid() && delivered <= pending
      ensures r.Pass? && delivered < pending ==> currentFrame == |pcm.samples|
      ensures r.Pass? <==> (NumChannels().Ok?
        && Share(pcm, old(currentFrame), NumChannels().value, pending) % NumChannels().value == 0)
      ensures r.Fail? ==> (delivered == 0 && currentFrame == old(currentFrame) && out[..] == old(out[..])
        && (r.error == UnknownChannelMode || r.error == RequestUnderflow))
      ensures r.Pass? ==> var nch := NumChannels().value;
        delivered == Share(pcm, old(currentFrame), nch, pending)
        && currentFrame == old(currentFrame) + delivered / nch && delivered / nch * nch == delivered
        && out[..] == Spliced(old(out[..]), at, Interleaved(pcm, old(currentFrame), delivered / nch, nch))
      ensures currentFrame >= old(currentFrame)
      ensures Delivery(header, pcm, old(currentFrame), pending)
           == if r.Pass? then Ok(Portion(delivered, currentFrame - old(currentFrame))) else Err(r.error)
    {
      DeliveryShares(header, pcm, currentFrame, pending);
      var channels := NumChannels();
      if channels.Err? {
        return 0, Fail(channels.error);
      }
      var nch := channels.value;
      var share := Share(pcm, currentFrame, nch, pending);
      if share % nch != 0 {
        return 0, Fail(RequestUnderflow);
      }
      var frames := share / nch;
      DivModOf(frames, nch, 0);
      if share < pending {
        assert share == (|pcm.samples| - currentFrame) * nch;
        DivModOf(|pcm.samples| - currentFrame, nch, 0);
      }
      ExtractFrames(out, at, pcm, currentFrame, frames, nch);
      currentFrame := currentFrame + frames;
      return share, Pass;
    }

    /** readMpgFile as decode's refill branch uses it: an I/O error, end
        of input (nothing left to read or no room in the window), or more
        bytes. */
    method Replenish() returns (r: Result<bool, Failure>)
      requires Valid()
      modifies this`stream, this`src, buffer
      ensures Valid()
      ensures r.Err? ==> r.error == IoError
      ensures r == Ok(false) ==> Remaining(src) == [] || Leftover(stream) == bufferSize
      ensures r == Ok(false) ==> stream.error == old(stream.error)
      ensures r == Ok(true) ==> stream.error == NoError
      ensures var k := Reread(old(Input()));
        r == RefillVerdict(k.0) && Input() == k.1
    {
      ghost var f := Input();
      r := ReadMpgFile();
      assert Fits(f);
    }

    /** What decode does once the current block is spent: refill the
        window when libmad asked for more input (Ok(false) at end of file),
        then decode the next frame. A recoverable error skips any tag and
        resyncs; a buffer shortage is retried; any other error throws. A
        decoded frame advances the timer and becomes the current block. */
    method NextBlock() returns (r: Result<bool, Failure>, ghost grew: bool)
      requires Valid()
      modifies this`stream, this`src, this`header, this`pcm, this`currentFrame, this`timer,
               this`decoded, this`blocks, buffer
      ensures Valid()
      ensures r.Err? ==> r.error == IoError || r.error == UnrecoverableFrame
      ensures r == Ok(false) ==> Remaining(src) == [] || Leftover(stream) == bufferSize
      ensures grew ==> (r == Ok(true) && decoded == old(decoded) + [header]
                        && blocks == old(blocks) + [pcm] && currentFrame == 0)
      ensures !grew ==> (decoded == old(decoded) && blocks == old(blocks)
                         && pcm == old(pcm) && currentFrame == old(currentFrame))
      ensures var t := DecodeTurn(engine, old(Input()), old(header));
        State() == Moved(old(State()), t) && grew == t.turn.Got? && r == DecodeVerdict(t.turn)
    {
      if stream.error == BufLen {
        var more := Replenish();
        if more.Err? {
          return Err(more.error), false;
        }
        if !more.value {
          return Ok(false), false;
        }
      }
      r, grew := DecodeFrame();
    }

    /** The frame decode of decode's outer loop, once the window holds
        input: a recoverable error skips any tag and resyncs, a buffer
        shortage is retried, any other error throws, and a decoded frame
        advances the timer and becomes the current block. */
    method DecodeFrame() returns (r: Result<bool, Failure>, ghost grew: bool)
      requires Valid()
      modifies this`stream, this`header, this`pcm, this`currentFrame, this`timer, this`decoded, this`blocks
      ensures Valid()
      ensures r.Err? ==> r.error == UnrecoverableFrame
      ensures grew ==> (r == Ok(true) && decoded == old(decoded) + [header]
                        && blocks == old(blocks) + [pcm] && currentFrame == 0)
      ensures !grew ==> (decoded == old(decoded) && blocks == old(blocks)
                         && pcm == old(pcm) && currentFrame == old(currentFrame))
      ensures var t := Attempt(engine, old(Input()), old(header));
        State() == Moved(old(State()), t) && grew == t.turn.Got? && r == DecodeVerdict(t.turn)
    {
      var d := engine.frameDecode(buffer[..], stream, header);
      header := d.header;
      stream := After(stream, d);
      if d.status != NoError {
        if Recoverable(stream.error) {
          var _ := ConsumeId3Tag();
          return Ok(true), false;
        } else if stream.error == BufLen {
          return Ok(true), false;
        } else {
          return Err(UnrecoverableFrame), false;
        }
      }
      timer := timer + header.duration;
      decoded := decoded + [header];
      pcm := d.pcm;
      blocks := blocks + [pcm];
      currentFrame := 0;
      return Ok(true), true;
    }

    /** decode: delivers up to `request` clamped samples into `out` from
        index 0, channel by channel for each frame position, decoding new
        frames as the current block runs out. Returns fewer samples only
        at end of file (or when `fuel` decode attempts are spent). The
        samples are the rest of the block current on entry, then `runs[k]`
        frame positions of each block `bs[k]` decoded meanwhile, from the
        frame with header `hs[k]`; every block but the last is delivered
        whole. */
    method Decode(request: nat, out: array<int>, fuel: nat)
      returns (total: nat, r: Result<Stop, Failure>, ghost bs: seq<Pcm>, ghost hs: seq<Header>, ghost runs: seq<nat>)
      requires Valid() && request <= out.Length
      modifies this`stream, this`src, this`header, this`pcm, this`currentFrame, this`timer,
               this`decoded, this`blocks, buffer, out
      ensures Valid()
      ensures total <= request
      ensures r.Ok? ==> (r.value == Satisfied <==> total == request)
      ensures r == Ok(EndOfStream) ==> Remaining(src) == [] || Leftover(stream) == bufferSize
      ensures forall i :: 0 <= i < total ==> -MadFOne <= out[i] < MadFOne
      ensures forall i :: total <= i < out.Length ==> out[i] == old(out[i])
      ensures decoded == old(decoded) + hs && blocks == old(blocks) + bs
      ensures Runs(bs, Widths(hs), runs) && Delivered(bs, runs, r.Err? || total == request)
      ensures r.Ok? ==> old(NumChannels()).Ok?
      ensures r.Ok? ==> var nch := old(NumChannels()).value;
        var first := Share(old(pcm), old(currentFrame), nch, request);
        first <= total && first % nch == 0
        && out[..total] == Interleaved(old(pcm), old(currentFrame), first / nch, nch) + Joined(bs, Widths(hs), runs)
      ensures Run(total, r, State(), bs, hs, runs) == DecodeOf(engine, old(State()), request, fuel)
    {
      ghost var w0 := out[..];
      ghost var st := State();
      var delivered, ok := Deliver(out, 0, request);
      bs, hs, runs := [], [], [];
      if ok.Fail? {
        assert DecodeOf(engine, st, request, fuel) == Run(0, Err(ok.error), State(), [], [], []);
        return 0, Err(ok.error), bs, hs, runs;
      }
      ghost var rest := DecodeRun(engine, State(), request, delivered, fuel, [], [], []);
      assert DecodeOf(engine, st, request, fuel) == rest;
      ghost var nch := NumChannels().value;
      ghost var head := Interleaved(pcm, old(currentFrame), delivered / nch, nch);
      InterleavedClamped(pcm, old(currentFrame), delivered / nch, nch);
      total, r, bs, hs, runs := Finish(request, out, delivered, fuel, w0, head);
    }

    /** The rest of decode once the current block has delivered `start`
        values (`head`, over `w0`): the outer loop. */
    method Finish(request: nat, out: array<int>, start: nat, fuel: nat, ghost w0: seq<int>, ghost head: seq<int>)
      returns (total: nat, r: Result<Stop, Failure>, ghost bs: seq<Pcm>, ghost hs: seq<Header>, ghost runs: seq<nat>)
      requires Valid() && start <= request <= out.Length
      requires start < request ==> currentFrame == |pcm.samples|
      requires |head| == start && |w0| == out.Length && Clamped(head) && out[..] == Spliced(w0, 0, head)
      modifies this`stream, this`src, this`header, this`pcm, this`currentFrame, this`timer,
               this`decoded, this`blocks, buffer, out
      ensures Valid()
      ensures start <= total <= request
      ensures r.Ok? ==> (r.value == Satisfied <==> total == request)
      ensures r == Ok(EndOfStream) ==> Remaining(src) == [] || Leftover(stream) == bufferSize
      ensures forall i :: 0 <= i < total ==> -MadFOne <= out[i] < MadFOne
      ensures forall i :: total <= i < out.Length ==> out[i] == w0[i]
      ensures decoded == old(decoded) + hs && blocks == old(blocks) + bs
      ensures Runs(bs, Widths(hs), runs) && Delivered(bs, runs, r.Err? || total == request)
      ensures out[..total] == head + Joined(bs, Widths(hs), runs)
      ensures Run(total, r, State(), bs, hs, runs) == DecodeRun(engine, old(State()), request, start, fuel, [], [], [])
    {
      total, r, bs, hs, runs := Continue(request, out, start, fuel);
      ProgressAfter(w0, head, out[..], total, bs, Widths(hs), runs, r.Err? || total == request);
    }

    /** decode's outer loop once the block current on entry is spent: the
        samples from index `start` on, one decoded block at a time, written
        over `out` from `start` and nothing else. */
    method Continue(request: nat, out: array<int>, start: nat, fuel: nat)
      returns (total: nat, r: Result<Stop, Failure>, ghost bs: seq<Pcm>, ghost hs: seq<Header>, ghost runs: seq<nat>)
      requires Valid() && start <= request <= out.Length
      requires start < request ==> currentFrame == |pcm.samples|
      modifies this`stream, this`src, this`header, this`pcm, this`currentFrame, this`timer,
               this`decoded, this`blocks, buffer, out
      ensures Valid()
      ensures start <= total <= request
      ensures r.Ok? ==> (r.value == Satisfied <==> total == request)
      ensures r == Ok(EndOfStream) ==> Remaining(src) == [] || Leftover(stream) == bufferSize
      ensures decoded == old(decoded) + hs && blocks == old(blocks) + bs
      ensures Progress(old(out[..]), start, total, out[..], bs, Widths(hs), runs, r.Err? || total == request)
      ensures Run(total, r, State(), bs, hs, runs) == DecodeRun(engine, old(State()), request, start, fuel, [], [], [])
    {
      total := start;
      r := Ok(Satisfied);
      bs, hs, runs := [], [], [];
      ghost var d0, b0, w0 := decoded, blocks, out[..];
      ghost var st0 := State();
      ghost var now := st0;
      ghost var goal := DecodeRun(engine, st0, request, start, fuel, [], [], []);
      ProgressStart(w0, start);
      var steps := fuel;
      while total < request
        invariant Valid() && start <= total <= request
        invariant decoded == d0 + hs && blocks == b0 + bs
        invariant Progress(w0, start, total, out[..], bs, Widths(hs), runs, total == request)
        invariant total < request ==> currentFrame == |pcm.samples|
        invariant r == Ok(Satisfied)
        invariant now == State()
        invariant goal == DecodeRun(engine, now, request, total, steps, bs, hs, runs)
        decreases steps
      {
        if steps == 0 {
          return total, Ok(StepBound), bs, hs, runs;
        }
        total, r, bs, hs, runs, now := Advance(request, out, start, total, d0, b0, w0, bs, hs, runs, steps, now, goal);
        steps := steps - 1;
        if r != Ok(Satisfied) {
          return;
        }
      }
    }

    /** A round of decode's outer loop as the loop sees it: the run `goal`
        from the state `st` with `fuel` rounds left ends with this round
        when the round ends the loop, and otherwise is the run from the new
        state `st'` with one round fewer. */
    method Advance(request: nat, out: array<int>, start: nat, total: nat,
                   ghost d0: seq<Header>, ghost b0: seq<Pcm>, ghost w0: seq<int>,
                   ghost bs: seq<Pcm>, ghost hs: seq<Header>, ghost runs: seq<nat>,
                   ghost fuel: nat, ghost st: Snapshot, ghost goal: Decoding)
      returns (total': nat, r: Result<Stop, Failure>, ghost bs': seq<Pcm>, ghost hs': seq<Header>, ghost runs': seq<nat>,
               ghost st': Snapshot)
      requires Valid() && start <= total < request <= out.Length && currentFrame == |pcm.samples|
      requires decoded == d0 + hs && blocks == b0 + bs
      requires Progress(w0, start, total, out[..], bs, Widths(hs), runs, false)
      requires fuel > 0 && st == State()
      requires goal == DecodeRun(engine, st, request, total, fuel, bs, hs, runs)
      modifies this`stream, this`src, this`header, this`pcm, this`currentFrame, this`timer,
               this`decoded, this`blocks, buffer, out
      ensures Valid() && total <= total' <= request
      ensures r == Ok(Satisfied) || r == Ok(EndOfStream) || r.Err?
      ensures r != Ok(Satisfied) ==> total' == total
      ensures r == Ok(EndOfStream) ==> Remaining(src) == [] || Leftover(stream) == bufferSize
      ensures decoded == d0 + hs' && blocks == b0 + bs'
      ensures Progress(w0, start, total', out[..], bs', Widths(hs'), runs', r.Err? || total' == request)
      ensures r == Ok(Satisfied) && total' < request ==> currentFrame == |pcm.samples|
      ensures st' == State()
      ensures r != Ok(Satisfied) ==> goal == Run(total', r, st', bs', hs', runs')
      ensures r == Ok(Satisfied) ==> goal == DecodeRun(engine, st', request, total', fuel - 1, bs', hs', runs')
    {
      total', r, bs', hs', runs' := Round(request, out, start, total, d0, b0, w0, bs, hs, runs);
      st' := State();
      RunOn(engine, st, request, total, fuel, bs, hs, runs);
    }

    /** One round of decode's outer loop: the next frame decode, then what
        the current block delivers. */
    method Round(request: nat, out: array<int>, start: nat, total: nat,
                 ghost d0: seq<Header>, ghost b0: seq<Pcm>, ghost w0: seq<int>,
                 ghost bs: seq<Pcm>, ghost hs: seq<Header>, ghost runs: seq<nat>)
      returns (total': nat, r: Result<Stop, Failure>, ghost bs': seq<Pcm>, ghost hs': seq<Header>, ghost runs': seq<nat>)
      requires Valid() && start <= total < request <= out.Length && currentFrame == |pcm.samples|
      requires decoded == d0 + hs && blocks == b0 + bs
      requires Progress(w0, start, total, out[..], bs, Widths(hs), runs, false)
      modifies this`stream, this`src, this`header, this`pcm, this`currentFrame, this`timer,
               this`decoded, this`blocks, buffer, out
      ensures Valid() && total <= total' <= request
      ensures r == Ok(Satisfied) || r == Ok(EndOfStream) || r.Err?
      ensures r != Ok(Satisfied) ==> total' == total
      ensures r == Ok(EndOfStream) ==> Remaining(src) == [] || Leftover(stream) == bufferSize
      ensures decoded == d0 + hs' && blocks == b0 + bs'
      ensures Progress(w0, start, total', out[..], bs', Widths(hs'), runs', r.Err? || total' == request)
      ensures r == Ok(Satisfied) && total' < request ==> currentFrame == |pcm.samples|
      ensures var one := RoundOf(engine, old(State()), request, total);
        total' == one.total && r == one.verdict && State() == one.state
        && bs' == bs + one.bs && hs' == hs + one.hs && runs' == runs + one.runs
    {
      ghost var now := out[..];
      ghost var grew;
      var more;
      ghost var st := State();
      ghost var t := DecodeTurn(engine, st.feed, st.header);
      more, grew := NextBlock();
      assert out[..] == now;
      ghost var moved := State();
      assert moved == Moved(st, t);
      assert more == DecodeVerdict(t.turn);
      assert RoundOf(engine, st, request, total) == Served(t, moved, request, total);
      if more.Err? {
        return total, Err(more.error), bs, hs, runs;
      }
      if !more.value {
        return total, Ok(EndOfStream), bs, hs, runs;
      }
      total', r, bs', hs', runs' := Serve(request, out, start, total, d0, b0, w0, bs, hs, runs, t);
    }

    /** The delivery half of a round, once a frame decode left input to
        deliver from: Take, seen as the rest of the round. */
    method Serve(request: nat, out: array<int>, start: nat, total: nat,
                 ghost d0: seq<Header>, ghost b0: seq<Pcm>, ghost w0: seq<int>,
                 ghost bs: seq<Pcm>, ghost hs: seq<Header>, ghost runs: seq<nat>, ghost t: Step)
      returns (total': nat, r: Result<Stop, Failure>, ghost bs': seq<Pcm>, ghost hs': seq<Header>, ghost runs': seq<nat>)
      requires Valid() && start <= total < request <= out.Length
      requires DecodeVerdict(t.turn) == Ok(true)
      requires if t.turn.Got? then currentFrame == 0 && pcm == t.turn.block && header == t.header
               else currentFrame == |pcm.samples|
      requires t.turn.Got? ==> decoded == d0 + hs + [header] && blocks == b0 + bs + [pcm]
      requires !t.turn.Got? ==> decoded == d0 + hs && blocks == b0 + bs
      requires Progress(w0, start, total, out[..], bs, Widths(hs), runs, false)
      modifies out, this`currentFrame
      ensures Valid() && total <= total' <= request
      ensures r == Ok(Satisfied) || r.Err?
      ensures r != Ok(Satisfied) ==> total' == total
      ensures decoded == d0 + hs' && blocks == b0 + bs'
      ensures Progress(w0, start, total', out[..], bs', Widths(hs'), runs', r.Err? || total' == request)
      ensures r == Ok(Satisfied) && total' < request ==> currentFrame == |pcm.samples|
      ensures var o := Served(t, old(State()), request, total);
        total' == o.total && r == o.verdict && State() == o.state
        && bs' == bs + o.bs && hs' == hs + o.hs && runs' == runs + o.runs
    {
      ghost var moved := State();
      ghost var run;
      total', r, bs', hs', runs', run := Take(request, out, start, total, w0, bs, hs, runs, t.turn.Got?);
      ServedBy(t, moved, request, total, total', r, run, bs, hs, runs, bs', hs', runs');
      if t.turn.Got? {
        Regrouped(d0, hs, header);
        Regrouped(b0, bs, pcm);
      }
    }

    /** One delivery of decode's outer loop after a frame decode: when a new
        block arrived (`grew`) it delivers up to the request, one more
        run; otherwise the spent block delivers nothing. Only an error of
        Deliver is an Err, and a new block then counts with an empty run. */
    method Take(request: nat, out: array<int>, start: nat, total: nat, ghost w0: seq<int>,
                ghost bs: seq<Pcm>, ghost hs: seq<Header>, ghost runs: seq<nat>, ghost grew: bool)
      returns (total': nat, r: Result<Stop, Failure>, ghost bs': seq<Pcm>, ghost hs': seq<Header>, ghost runs': seq<nat>,
               ghost run: nat)
      requires Valid() && start <= total < request <= out.Length
      requires if grew then currentFrame == 0 else currentFrame == |pcm.samples|
      requires Progress(w0, start, total, out[..], bs, Widths(hs), runs, false)
      modifies out, this`currentFrame
      ensures Valid() && total <= total' <= request && (r.Ok? ==> r == Ok(Satisfied))
      ensures r.Err? ==> total' == total
      ensures bs' == (if grew then bs + [pcm] else bs) && hs' == (if grew then hs + [header] else hs)
      ensures Progress(w0, start, total', out[..], bs', Widths(hs'), runs', r.Err? || total' == request)
      ensures r.Ok? && total' < request ==> currentFrame == |pcm.samples|
      ensures currentFrame == old(currentFrame) + run && (r.Err? ==> run == 0)
      ensures Delivery(header, pcm, old(currentFrame), request - total)
           == if r.Ok? then Ok(Portion(total' - total, run)) else Err(r.error)
      ensures runs' == runs + if grew then [run] else []
    {
      ghost var before := out[..];
      ghost var added;
      total', r, run, added := Hand(request, out, total, grew);
      bs', hs', runs' := if grew then bs + [pcm] else bs, if grew then hs + [header] else hs,
                         if grew then runs + [run] else runs;
      Took(w0, start, total, before, out[..], bs, hs, runs, pcm, header, run, added, grew,
           r.Err? || total' == request, total');
    }

    /** The delivery of one Take: `added`, the values written from
        `total`, are the frames of the current block from the cursor on
        (none when the block is spent, `grew` false). */
    method Hand(request: nat, out: array<int>, total: nat, ghost grew: bool)
      returns (total': nat, r: Result<Stop, Failure>, ghost run: nat, ghost added: seq<int>)
      requires Valid() && total < request <= out.Length
      requires if grew then currentFrame == 0 else currentFrame == |pcm.samples|
      modifies out, this`currentFrame
      ensures Valid() && total <= total' <= request && (r.Ok? ==> r == Ok(Satisfied))
      ensures r.Err? ==> total' == total
      ensures r.Ok? && total' < request ==> currentFrame == |pcm.samples|
      ensures currentFrame == old(currentFrame) + run && (r.Err? ==> run == 0)
      ensures Delivery(header, pcm, old(currentFrame), request - total)
           == if r.Ok? then Ok(Portion(total' - total, run)) else Err(r.error)
      ensures total' == total + |added| && out[..] == Spliced(old(out[..]), total, added)
      ensures if grew then run <= |pcm.samples| && added == Interleaved(pcm, 0, run, Width(header)) else added == []
    {
      ghost var before := out[..];
      ghost var d := Delivery(header, pcm, currentFrame, request - total);
      var delivered, ok := Deliver(out, total, request - total);
      if ok.Fail? {
        total', r := total, Err(ok.error);
        run, added := 0, [];
        assert d == Err(r.error);
        assert out[..] == Spliced(before, total, added);
      } else {
        total', r := total + delivered, Ok(Satisfied);
        var nch := NumChannels().value;
        run := delivered / nch;
        assert d == Ok(Portion(total' - total, run));
        added := Interleaved(pcm, old(currentFrame), run, nch);
        assert |added| == delivered;
        if !grew {
          assert run == 0 && added == [];
        }
      }
    }
  }
}
