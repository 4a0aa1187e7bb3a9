/** The decode loops both libmad front ends run, as values: the input a
    decoder holds (window, stream, file), one refill, one pass of the sync
    loop of start/open and one pass of the frame loop of decode/mpegRead,
    each over the abstract engine, and the sync loop as a run of passes.
    The methods of MadDecoder and MpegFile are proved equal to these. */
module MadLoop {
  import opened Wrappers
  import opened MadEngine
  import opened MadStream

  /** A decoder's input side: the byte window, libmad's stream over it and
      the file. */
  datatype Feed = Feed(window: seq<byte>, stream: Stream, src: Source)

  predicate Fits(f: Feed) { Within(f.stream, |f.window|) }

  /** How a refill ends: fread reported a device error, delivered
      nothing, or delivered bytes. */
  datatype Refilling = DeviceError | NothingRead | MoreBytes

  /** readMpgFile / fileRead: the unconsumed tail moved to the front, the
      rest of the window read from the file; only when bytes arrived is
      the stream pointed at the tail and the new bytes, with its error
      cleared. */
  ghost function Reread(f: Feed): (r: (Refilling, Feed))
    requires Fits(f)
    ensures Fits(r.1) && |r.1.window| == |f.window|
    ensures r.1.src.bytes == f.src.bytes && r.1.src.faulty == f.src.faulty
    ensures r.0 != MoreBytes ==> r.1.stream == f.stream
    ensures r.0 == MoreBytes ==> r.1.stream.error == NoError
    ensures r.0 == DeviceError ==> f.src.faulty
    ensures r.0 == NothingRead ==> Remaining(f.src) == [] || Leftover(f.stream) == |f.window|
  {
    var n := |f.window| - Leftover(f.stream);
    var count := ReadCount(f.src, n);
    var after := Feed(Refilled(f.window, f.stream, f.src), f.stream, AfterRead(f.src, n));
    if count != |f.window| && f.src.faulty then (DeviceError, after)
    else if count == 0 then (NothingRead, after)
    else (MoreBytes, after.(stream := Rebuffer(f.stream, 0, Leftover(f.stream) + count).(error := NoError)))
  }

  /** How one pass of a loop ends: a frame decoded into `block`; go round
      again; the refill read nothing; the refill hit a device error; an
      unrecoverable frame error. */
  datatype Turn = Got(block: Pcm) | Retry | NoInput | DeviceFault | Fatal

  /** A pass's end, with the input and the frame header after it. */
  datatype Step = Step(turn: Turn, feed: Feed, header: Header)

  /** The frame decode of decode / mpegRead: a decoded frame; on a
      recoverable error any tag is skipped and the stream resynced; a
      buffer shortage goes round again; any other error is fatal. The
      frame keeps the header the engine leaves in it. */
  ghost function Attempt(e: Engine, f: Feed, h: Header): (r: Step)
    requires Fits(f)
    ensures Fits(r.feed) && r.feed.window == f.window && r.feed.src == f.src
  {
    var d := e.frameDecode(f.window, f.stream, h);
    var s := After(f.stream, d);
    if d.status == NoError then Step(Got(d.pcm), f.(stream := s), d.header)
    else if Recoverable(s.error) then Step(Retry, f.(stream := TagResynced(e, f.window, s)), d.header)
    else if s.error == BufLen then Step(Retry, f.(stream := s), d.header)
    else Step(Fatal, f.(stream := s), d.header)
  }

  /** One pass of the frame loop of decode / mpegRead once the current
      block is spent: a refill first when libmad asked for more input,
      then the frame decode. */
  ghost function DecodeTurn(e: Engine, f: Feed, h: Header): (r: Step)
    requires Fits(f)
    ensures Fits(r.feed) && |r.feed.window| == |f.window|
    ensures r.feed.src.bytes == f.src.bytes && r.feed.src.faulty == f.src.faulty
  {
    if f.stream.error == BufLen then
      var (k, f1) := Reread(f);
      if k == DeviceError then Step(DeviceFault, f1, h)
      else if k == NothingRead then Step(NoInput, f1, h)
      else Attempt(e, f1, h)
    else Attempt(e, f, h)
  }

  /** One pass of the sync loop of start / open: a decoded frame ends it;
      otherwise the pass recovers from the error. */
  ghost function SyncTurn(e: Engine, f: Feed, h: Header): (r: Step)
    requires Fits(f)
    ensures Fits(r.feed) && |r.feed.window| == |f.window|
    ensures r.feed.src.bytes == f.src.bytes && r.feed.src.faulty == f.src.faulty
  {
    var d := e.frameDecode(f.window, f.stream, h);
    if d.status == NoError then Step(Got(d.pcm), f.(stream := After(f.stream, d)), d.header)
    else Recovered(e, f, d)
  }

  /** The rest of a sync pass whose frame decode failed with `d`: a buffer
      shortage refills the window; any other error skips any tag, resyncs
      and clears the error. */
  ghost function Recovered(e: Engine, f: Feed, d: Decoded): (r: Step)
    requires Fits(f)
    ensures Fits(r.feed) && |r.feed.window| == |f.window|
    ensures r.feed.src.bytes == f.src.bytes && r.feed.src.faulty == f.src.faulty
  {
    var s := After(f.stream, d);
    if s.error == BufLen then
      var (k, f1) := Reread(f.(stream := s));
      Step(if k == DeviceError then DeviceFault else if k == NothingRead then NoInput else Retry, f1, d.header)
    else Step(Retry, f.(stream := TagResynced(e, f.window, s).(error := NoError)), d.header)
  }

  /** The sync loop, one unit of `fuel` per pass: passes until one does
      not send it round again; Retry when the fuel ran out first. */
  ghost function SyncRun(e: Engine, f: Feed, h: Header, fuel: nat): (r: Step)
    requires Fits(f)
    ensures Fits(r.feed) && |r.feed.window| == |f.window|
    ensures r.feed.src.bytes == f.src.bytes && r.feed.src.faulty == f.src.faulty
    decreases fuel, 0
  {
    if fuel == 0 then Step(Retry, f, h) else SyncFrom(e, f, h, fuel - 1)
  }

  /** A pass of the sync loop: its frame decode ends the loop on a frame,
      and otherwise the loop goes on from the recovery. */
  ghost function SyncFrom(e: Engine, f: Feed, h: Header, fuel: nat): (r: Step)
    requires Fits(f)
    ensures Fits(r.feed) && |r.feed.window| == |f.window|
    ensures r.feed.src.bytes == f.src.bytes && r.feed.src.faulty == f.src.faulty
    decreases fuel, 2
  {
    var d := e.frameDecode(f.window, f.stream, h);
    if d.status == NoError then Step(Got(d.pcm), f.(stream := After(f.stream, d)), d.header)
    else SyncRecover(e, f, d, fuel)
  }

  /** The loop after a failed frame decode: over unless the recovery
      sends it round. */
  ghost function SyncRecover(e: Engine, f: Feed, d: Decoded, fuel: nat): (r: Step)
    requires Fits(f)
    ensures Fits(r.feed) && |r.feed.window| == |f.window|
    ensures r.feed.src.bytes == f.src.bytes && r.feed.src.faulty == f.src.faulty
    decreases fuel, 1
  {
    var t := Recovered(e, f, d);
    if t.turn == Retry then SyncRun(e, t.feed, t.header, fuel) else t
  }

  /** The sync loop with fuel left is one pass, then the loop again with
      one unit fewer if the pass sends it round. */
  lemma SyncOn(e: Engine, f: Feed, h: Header, fuel: nat)
    requires Fits(f) && fuel > 0
    ensures var t := SyncTurn(e, f, h);
      SyncRun(e, f, h, fuel) == if t.turn == Retry then SyncRun(e, t.feed, t.header, fuel - 1) else t
  {
    var d := e.frameDecode(f.window, f.stream, h);
    if d.status != NoError {
      assert SyncRun(e, f, h, fuel) == SyncRecover(e, f, d, fuel - 1);
    }
  }

  /** The input has run out: the file has nothing left, or the window is
      full of unconsumed bytes so that no read is asked for. */
  predicate Exhausted(f: Feed)
    requires Fits(f)
  {
    Remaining(f.src) == [] || Leftover(f.stream) == |f.window|
  }

  /** How a frame-loop pass can end: a fatal pass leaves libmad's error
      unrecoverable, a pass that reads nothing leaves the shortage and an
      exhausted input, a device fault needs a faulty file, and a pass that
      goes round again was sent round by a recoverable error or a
      shortage. */
  lemma DecodeTurnEnds(e: Engine, f: Feed, h: Header)
    requires Fits(f)
    ensures var r := DecodeTurn(e, f, h);
      && (r.turn == Fatal ==> r.feed.stream.error == Unrecoverable)
      && (r.turn == NoInput ==> r.feed.stream.error == BufLen && Exhausted(r.feed))
      && (r.turn == DeviceFault ==> f.src.faulty && r.feed.stream.error == BufLen)
      && (r.turn == Retry ==> Recoverable(r.feed.stream.error) || r.feed.stream.error == BufLen)
  {
    var r := DecodeTurn(e, f, h);
    if f.stream.error == BufLen {
      var (k, f1) := Reread(f);
      if k == NothingRead {
        RereadKeepsExhausted(f);
      } else if k == MoreBytes {
        AttemptEnds(e, f1, h);
      }
    } else {
      AttemptEnds(e, f, h);
    }
  }

  /** A refill that reads nothing leaves the input exhausted. */
  lemma RereadKeepsExhausted(f: Feed)
    requires Fits(f) && Reread(f).0 == NothingRead
    ensures Exhausted(Reread(f).1)
  {
    var n := |f.window| - Leftover(f.stream);
    if Remaining(f.src) != [] {
      assert Leftover(f.stream) == |f.window|;
    } else {
      ReadKeepsOrder(f.src, n);
    }
  }

  /** How the frame decode can end. */
  lemma AttemptEnds(e: Engine, f: Feed, h: Header)
    requires Fits(f)
    ensures var r := Attempt(e, f, h);
      && (r.turn == Fatal ==> r.feed.stream.error == Unrecoverable)
      && r.turn != NoInput && r.turn != DeviceFault
      && (r.turn == Retry ==> Recoverable(r.feed.stream.error) || r.feed.stream.error == BufLen)
  {
  }

  /** How the sync loop can end, from a stream without error: never in a
      fatal pass; a decoded frame or spent fuel leaves no error (so that
      the "No valid MP3 frame found" test only fires after a read of
      nothing); a read of nothing leaves the shortage and an exhausted
      input; a device fault needs a faulty file. */
  lemma {:induction false} SyncRunEnds(e: Engine, f: Feed, h: Header, fuel: nat)
    requires Fits(f) && f.stream.error == NoError
    ensures var r := SyncRun(e, f, h, fuel);
      && r.turn != Fatal
      && (r.turn.Got? || r.turn == Retry ==> r.feed.stream.error == NoError)
      && (r.turn == NoInput ==> r.feed.stream.error == BufLen && Exhausted(r.feed))
      && (r.turn == DeviceFault ==> f.src.faulty && r.feed.stream.error == BufLen)
    decreases fuel
  {
    if fuel > 0 {
      var t := SyncTurn(e, f, h);
      SyncTurnEnds(e, f, h);
      SyncOn(e, f, h, fuel);
      if t.turn == Retry {
        SyncRunEnds(e, t.feed, t.header, fuel - 1);
      }
    }
  }

  /** How a sync pass can end, from a stream without error. */
  lemma SyncTurnEnds(e: Engine, f: Feed, h: Header)
    requires Fits(f) && f.stream.error == NoError
    ensures var r := SyncTurn(e, f, h);
      && r.turn != Fatal
      && (r.turn.Got? || r.turn == Retry ==> r.feed.stream.error == NoError)
      && (r.turn == NoInput ==> r.feed.stream.error == BufLen && Exhausted(r.feed))
      && (r.turn == DeviceFault ==> f.src.faulty && r.feed.stream.error == BufLen)
  {
    var d := e.frameDecode(f.window, f.stream, h);
    var s := After(f.stream, d);
    if d.status != NoError && s.error == BufLen {
      var g := f.(stream := s);
      if Reread(g).0 == NothingRead {
        RereadKeepsExhausted(g);
      }
    }
  }

  /** The fuel bound only cuts the sync loop short: once a run ends in
      anything but Retry, more fuel ends it the same way. */
  lemma {:induction false} SyncRunFuel(e: Engine, f: Feed, h: Header, fuel: nat, more: nat)
    requires Fits(f) && fuel <= more && SyncRun(e, f, h, fuel).turn != Retry
    ensures SyncRun(e, f, h, more) == SyncRun(e, f, h, fuel)
    decreases fuel
  {
    var t := SyncTurn(e, f, h);
    SyncOn(e, f, h, fuel);
    SyncOn(e, f, h, more);
    if t.turn == Retry {
      SyncRunFuel(e, t.feed, t.header, fuel - 1, more - 1);
    }
  }

  /** A decoder's state as decode and mpegRead see it: the input, the
      current frame header, the current block and the frame position of
      the next value to deliver. */
  datatype Snapshot = Snapshot(feed: Feed, header: Header, pcm: Pcm, cursor: nat)

  predicate Sound(st: Snapshot) {
    Fits(st.feed) && st.cursor <= |st.pcm.samples|
  }

  /** The state after a frame-loop pass `t` from `st`: a decoded frame
      becomes the current block, read from its start. */
  ghost function Moved(st: Snapshot, t: Step): (r: Snapshot)
    requires Sound(st) && Fits(t.feed)
    ensures Sound(r)
  {
    if t.turn.Got? then Snapshot(t.feed, t.header, t.turn.block, 0)
    else Snapshot(t.feed, t.header, st.pcm, st.cursor)
  }

  /** What some passes of an outer loop produce: the count reached, the
      verdict, the state left, and the blocks decoded meanwhile with their
      headers and the frame positions delivered from each. */
  datatype Run<V> = Run(total: nat, verdict: V, state: Snapshot,
                        bs: seq<Pcm>, hs: seq<Header>, runs: seq<nat>)

  /** The blocks a frame-loop pass adds to the history. */
  ghost function Grown(t: Step): (r: (seq<Pcm>, seq<Header>))
    ensures |r.0| == |r.1| <= 1 && (|r.0| == 1 <==> t.turn.Got?)
  {
    if t.turn.Got? then ([t.turn.block], [t.header]) else ([], [])
  }

  /** Some blocks recorded before a run. */
  function Prefixed<V>(bs: seq<Pcm>, hs: seq<Header>, runs: seq<nat>, o: Run<V>): (r: Run<V>)
    ensures r.total == o.total && r.verdict == o.verdict && r.state == o.state
    ensures r.bs == bs + o.bs && r.hs == hs + o.hs && r.runs == runs + o.runs
  {
    Run(o.total, o.verdict, o.state, bs + o.bs, hs + o.hs, runs + o.runs)
  }

  /** Blocks recorded before blocks recorded before a run are recorded
      before it together. */
  lemma PrefixedTwice<V>(bs: seq<Pcm>, hs: seq<Header>, runs: seq<nat>,
                         bs': seq<Pcm>, hs': seq<Header>, runs': seq<nat>, o: Run<V>)
    ensures Prefixed(bs, hs, runs, Prefixed(bs', hs', runs', o)) == Prefixed(bs + bs', hs + hs', runs + runs', o)
  {
    assert bs + (bs' + o.bs) == bs + bs' + o.bs;
    assert hs + (hs' + o.hs) == hs + hs' + o.hs;
    assert runs + (runs' + o.runs) == runs + runs' + o.runs;
  }
}
