/** The control flow of getDuration (identical in MadDecoder and MpegFile):
    the file is read window by window, frame headers are decoded and their
    durations summed; the first frame may carry a Xing frame count, which
    ends the scan; otherwise, once 25 headers have been counted with no
    bitrate change, the total is extrapolated from the bytes consumed.
    Leading zero bytes of a fill are skipped on the first fill and again
    after a tag that reached the end of the window; a tag found where sync
    was lost is skipped, the part beyond the window by seeking the file. */
module DurationScan {
  import opened Wrappers
  import opened MadEngine
  import opened MadStream
  import Id3
  import Xing

  /** Headers counted before a constant bitrate is assumed. */
  const CutoffFrames: nat := 25

  /** frames, initialBitrate and vbr of getDuration. */
  datatype Tally = Tally(frames: nat, initialBitrate: nat, vbr: bool)

  const NoFrames := Tally(0, 0, false)

  /** One counted header: the first fixes the initial bitrate, every later
      one raises the VBR flag when its bitrate differs from it. */
  function Count(t: Tally, bitrate: nat): Tally {
    if t.frames == 0 then Tally(1, bitrate, t.vbr)
    else Tally(t.frames + 1, t.initialBitrate, t.vbr || bitrate != t.initialBitrate)
  }

  /** The tally after counting headers with these bitrates, in order. */
  function Tallied(rates: seq<nat>): Tally {
    if rates == [] then NoFrames else Count(Tallied(rates[..|rates| - 1]), rates[|rates| - 1])
  }

  /** Some header after the first has a different bitrate. */
  predicate Changes(rates: seq<nat>) {
    exists i :: 0 < i < |rates| && rates[i] != rates[0]
  }

  /** The tally counts every header, remembers the first bitrate, and its
      VBR flag is set exactly when a later bitrate differs from the first. */
  lemma {:induction false} TalliedCounts(rates: seq<nat>)
    ensures Tallied(rates).frames == |rates|
    ensures |rates| > 0 ==> Tallied(rates).initialBitrate == rates[0]
    ensures Tallied(rates).vbr <==> Changes(rates)
  {
    if rates != [] {
      var init := rates[..|rates| - 1];
      TalliedCounts(init);
      if init != [] {
        assert init[0] == rates[0];
        if Changes(init) {
          var i :| 0 < i < |init| && init[i] != init[0];
          assert rates[i] != rates[0];
        }
        if Changes(rates) && !Changes(init) {
          var i :| 0 < i < |rates| && rates[i] != rates[0];
          assert i == |rates| - 1;
        }
      }
    }
  }

  /** The extrapolation condition: exactly 25 headers, VBR flag clear. */
  predicate Cutoff(t: Tally) { t.frames == CutoffFrames && !t.vbr }

  /** The cutoff is reached exactly when 25 headers of one bitrate have
      been counted. */
  lemma CutoffMeansConstant(rates: seq<nat>)
    ensures Cutoff(Tallied(rates)) <==>
      |rates| == CutoffFrames && forall i :: 0 <= i < |rates| ==> rates[i] == rates[0]
  {
    TalliedCounts(rates);
  }

  /** Scanning past 25 headers is only possible when the bitrate changed
      among the first 25. */
  predicate PastCutoffOnlyIfVbr(rates: seq<nat>) {
    |rates| >= CutoffFrames ==> Changes(rates[..CutoffFrames])
  }

  lemma {:induction false} CountKeepsGuard(rates: seq<nat>, b: nat)
    requires PastCutoffOnlyIfVbr(rates)
    requires !Cutoff(Tallied(rates + [b]))
    ensures PastCutoffOnlyIfVbr(rates + [b])
  {
    var next := rates + [b];
    assert next[..|next| - 1] == rates;
    if |next| == CutoffFrames {
      TalliedCounts(next);
      assert next[..CutoffFrames] == next;
    } else if |next| > CutoffFrames {
      assert next[..CutoffFrames] == rates[..CutoffFrames];
    }
  }

  /** The same guard as a tally: the first 25 bitrates counted raise the
      VBR flag. */
  predicate VbrByCutoff(rates: seq<nat>) {
    |rates| >= CutoffFrames ==> Tallied(rates[..CutoffFrames]).vbr
  }

  lemma VbrByCutoffMeans(rates: seq<nat>)
    ensures VbrByCutoff(rates) <==> PastCutoffOnlyIfVbr(rates)
  {
    if |rates| >= CutoffFrames {
      TalliedCounts(rates[..CutoffFrames]);
    }
  }

  /** How a tag found where sync was lost is passed over. */
  datatype Jump = Jump(seek: nat, skip: nat, repad: bool)

  /** The stream skips the part of the tag inside the window; a tag that
      reaches the end of the window makes the file seek past the rest and
      re-arms the skipping of leading zero bytes. */
  function TagJump(tagsize: nat, available: nat): (j: Jump)
    ensures j.seek + j.skip == tagsize
    ensures j.skip <= available && j.skip <= tagsize
    ensures j.repad <==> tagsize >= available
    ensures j.seek > 0 ==> j.repad
  {
    if tagsize >= available then Jump(tagsize - available, available, true)
    else Jump(0, tagsize, false)
  }

  /** The number of leading zero bytes. */
  function ZeroRun(s: seq<byte>): (n: nat)
    ensures n <= |s|
    ensures forall k :: 0 <= k < n ==> s[k] == 0
    ensures n < |s| ==> s[n] != 0
  {
    if s != [] && s[0] == 0 then 1 + ZeroRun(s[1..]) else 0
  }

  /** The leading zero run is the only prefix length with zeros below it
      and a non-zero byte or the end at it. */
  lemma {:induction false} ZeroRunUnique(s: seq<byte>, n: nat)
    requires n <= |s|
    requires forall k :: 0 <= k < n ==> s[k] == 0
    requires n < |s| ==> s[n] != 0
    ensures ZeroRun(s) == n
  {
    if n > 0 {
      ZeroRunUnique(s[1..], n - 1);
    }
  }

  /** The three ways the scan ends, in engine time units: summed over all
      headers seen; that sum times the first frame's Xing frame count; or
      the sum over 25 headers, to be scaled by (file size - tag size) /
      bytes consumed, a floating-point step that is not modelled. */
  datatype Estimate =
    | Measured(time: nat)
    | FromXing(time: nat, frames: nat)
    | Extrapolated(time: nat, fileSize: nat, tagsize: nat, consumed: nat)

  /** The locals of getDuration, with a record of what it summed and
      counted: the duration of every decoded header, the bitrate of every
      counted one, and how many tags reached past the window. */
  datatype ScanState = ScanState(s: Stream, src: Source, depadded: bool, tagsize: nat,
                                 time: nat, consumed: nat, tally: Tally, est: Option<Estimate>,
                                 durations: seq<nat>, rates: seq<nat>, crossings: nat)

  /** The locals on entry to getDuration. */
  function Initial(src: Source): ScanState {
    ScanState(Unbuffered, src, false, 0, 0, 0, NoFrames, None, [], [], 0)
  }

  function SumOf(ds: seq<nat>): nat {
    if ds == [] then 0 else SumOf(ds[..|ds| - 1]) + ds[|ds| - 1]
  }

  lemma SumOfAppend(ds: seq<nat>, d: nat)
    ensures SumOf(ds + [d]) == SumOf(ds) + d
  {
    assert (ds + [d])[..|ds|] == ds;
  }

  /** The tag skip at a lost sync: the tag size at this_frame is recorded;
      the stream skips the part of the tag inside the window; a tag that
      reaches the window end makes the file seek past the rest and re-arms
      the skipping of leading zero bytes. Nothing else changes. */
  function TagSkipped(w: seq<byte>, st: ScanState): (r: ScanState)
    requires Within(st.s, |w|)
    ensures var available := st.s.bufEnd - st.s.thisFrame;
      var crossed := r.tagsize > 0 && r.tagsize >= available;
      && r.tagsize == Id3.TagSize(w[st.s.thisFrame..st.s.bufEnd])
      && r.s == Skip(st.s, if r.tagsize < available then r.tagsize else available)
      && r.src == SeekForward(st.src, if crossed then r.tagsize - available else 0)
      && (r.depadded <==> st.depadded && !crossed)
      && r.crossings == st.crossings + (if crossed then 1 else 0)
      && r.(s := st.s, src := st.src, depadded := st.depadded, tagsize := st.tagsize,
            crossings := st.crossings) == st
  {
    var available := st.s.bufEnd - st.s.thisFrame;
    var tagsize := Id3.TagSize(w[st.s.thisFrame..st.s.bufEnd]);
    if tagsize == 0 then st.(tagsize := 0)
    else
      var j := TagJump(tagsize, available);
      st.(tagsize := tagsize, src := SeekForward(st.src, j.seek), s := Skip(st.s, j.skip),
          depadded := st.depadded && !j.repad,
          crossings := st.crossings + if j.repad then 1 else 0)
  }

  /** How a pass of the header loop ends: leaving the loop, going on, or
      going on after skipping a tag found where sync was lost. */
  datatype Pass = Leave | Go | Resync

  /** A header counted: the tally and the bitrate record grow, and at the
      cutoff the extrapolation decides the scan. */
  function CountHeader(st: ScanState, bitrate: nat): (r: (ScanState, Pass))
    ensures r.0.s == st.s && r.0.src == st.src && r.0.tagsize == st.tagsize
    ensures r.0.depadded == st.depadded && r.0.crossings == st.crossings
  {
    var c := st.(tally := Count(st.tally, bitrate), rates := st.rates + [bitrate]);
    if Cutoff(c.tally) then (c.(est := Some(Extrapolated(c.time, |c.src.bytes|, c.tagsize, c.consumed))), Leave)
    else (c, Go)
  }

  /** The first frame of the scan, once its header has been timed: its
      frame is decoded; an unrecoverable failure leaves the loop; a Xing
      frame count multiplies the time and decides the scan; otherwise the
      header is counted. */
  function FirstFrame(e: Engine, w: seq<byte>, timed: ScanState, h: Header): (r: (ScanState, Pass))
    requires Within(timed.s, |w|)
    ensures Within(r.0.s, |w|) && r.0.src == timed.src && r.0.tagsize == timed.tagsize
    ensures r.0.depadded == timed.depadded && r.0.crossings == timed.crossings
  {
    var f := e.frameDecode(w, timed.s, h);
    var s2 := After(timed.s, f);
    if f.status != NoError && !Recoverable(s2.error) then (timed.(s := s2), Leave)
    else
      var k := Xing.XingFrames(f.anc);
      if k != 0 then (timed.(s := s2, time := timed.time * k, est := Some(FromXing(timed.time * k, k))), Leave)
      else CountHeader(timed.(s := s2), h.bitrate)
  }

  /** One pass of the header loop of getDuration up to the tag skip: decode
      a header; on an error leave for BufLen or an unrecoverable error, and
      otherwise go on, with a tag skip first when sync was lost; on success
      add the header's time and bytes, then treat the first frame, or count
      the header. */
  function HeaderStep(e: Engine, w: seq<byte>, st: ScanState): (r: (ScanState, Pass))
    requires Within(st.s, |w|)
    ensures Within(r.0.s, |w|) && r.0.src == st.src && r.0.tagsize == st.tagsize
    ensures r.0.depadded == st.depadded && r.0.crossings == st.crossings
  {
    var s0 := st.s.(error := NoError);
    var d := e.headerDecode(w, s0);
    var s1 := After(s0, d);
    if d.status != NoError then
      (st.(s := s1), if !Recoverable(s1.error) then Leave else if s1.error == LostSync then Resync else Go)
    else
      var timed := st.(s := s1, time := st.time + d.header.duration,
                       durations := st.durations + [d.header.duration],
                       consumed := st.consumed + (s1.nextFrame - s1.thisFrame));
      if st.tally.frames == 0 then FirstFrame(e, w, timed, d.header)
      else CountHeader(timed, d.header.bitrate)
  }

  /** The inner `while(true)` loop of getDuration, one unit of `fuel` per
      header decode; also the fuel left. */
  function HeaderRun(e: Engine, w: seq<byte>, st: ScanState, fuel: nat): (r: (ScanState, nat))
    requires Within(st.s, |w|)
    ensures Within(r.0.s, |w|) && r.1 <= fuel
    ensures r.0.src.bytes == st.src.bytes && r.0.src.faulty == st.src.faulty
    decreases fuel, 0
  {
    if fuel == 0 then (st, 0)
    else
      var (next, pass) := HeaderStep(e, w, st);
      match pass
      case Leave => (next, fuel - 1)
      case Go => HeaderRun(e, w, next, fuel - 1)
      case Resync => Resynced(e, w, next, fuel - 1)
  }

  /** The header loop going on after the tag skip at a lost sync. */
  function Resynced(e: Engine, w: seq<byte>, st: ScanState, fuel: nat): (r: (ScanState, nat))
    requires Within(st.s, |w|)
    ensures Within(r.0.s, |w|) && r.1 <= fuel
    ensures r.0.src.bytes == st.src.bytes && r.0.src.faulty == st.src.faulty
    decreases fuel, 1
  {
    HeaderRun(e, w, TagSkipped(w, st), fuel)
  }

  /** The top of the outer loop of getDuration: the unconsumed bytes, read
      from this_frame, move to the front; fread fills the rest of the
      window; on the first fill, or after a tag reached the window end, the
      leading zero bytes are passed over; the stream is given the rest.
      Also the new window and the count read. */
  function Fill(w: seq<byte>, st: ScanState): (r: (seq<byte>, ScanState, nat))
    requires Within(st.s, |w|)
    ensures |r.0| == |w| && r.2 == ReadCount(st.src, |w| - Leftover(st.s))
    ensures r.1.src == AfterRead(st.src, |w| - Leftover(st.s)) && Within(r.1.s, |w|)
    ensures r.2 > 0 ==>
      && r.1.depadded
      && r.1.s.thisFrame == (if st.depadded then 0 else ZeroRun(r.0[..r.2]))
      && r.1.s.bufEnd == Leftover(st.s) + r.2
    ensures r.1.(src := st.src, depadded := st.depadded, s := st.s) == st
  {
    var leftover := st.s.bufEnd - st.s.nextFrame;
    var n := |w| - leftover;
    var count := ReadCount(st.src, n);
    var moved := Carried(w, st.s, st.src, count);
    var padding := if st.depadded then 0 else ZeroRun(moved[..count]);
    var next := st.(src := AfterRead(st.src, n));
    if count == 0 then (moved, next, 0)
    else (moved, next.(depadded := true, s := Rebuffer(st.s, padding, leftover + count - padding)), count)
  }

  /** The window after the unconsumed bytes, read from this_frame, moved to
      the front and fread filled the rest with `count` bytes. */
  function Carried(w: seq<byte>, s: Stream, src: Source, count: nat): seq<byte>
    requires Within(s, |w|) && count == ReadCount(src, |w| - Leftover(s))
  {
    w[s.thisFrame..s.thisFrame + Leftover(s)] + Taken(src, |w| - Leftover(s)) + w[Leftover(s) + count..]
  }

  /** The outer loop of getDuration, one unit of `fuel` per fill: fill the
      window, then go on with what was filled. */
  function ScanRun(e: Engine, w: seq<byte>, st: ScanState, fuel: nat): (r: ScanState)
    requires Within(st.s, |w|)
    ensures r.src.bytes == st.src.bytes && r.src.faulty == st.src.faulty
    decreases fuel, 1
  {
    if fuel == 0 then st else ScanFilled(e, Fill(w, st), fuel)
  }

  /** The rest of a round of the outer loop, given the new window, the
      locals and the count read: the loop ends when nothing was read;
      otherwise the header loop runs, and the outer loop goes on exactly
      when it stopped for more data. */
  function ScanFilled(e: Engine, f: (seq<byte>, ScanState, nat), fuel: nat): (r: ScanState)
    requires fuel > 0 && Within(f.1.s, |f.0|)
    ensures r.src.bytes == f.1.src.bytes && r.src.faulty == f.1.src.faulty
    decreases fuel, 0
  {
    var (moved, filled, count) := f;
    if count == 0 then filled
    else
      var (scanned, left) := HeaderRun(e, moved, filled, fuel - 1);
      if scanned.s.error != BufLen then scanned else ScanRun(e, moved, scanned, left)
  }

  /** What getDuration reports for the final locals. */
  function EstimateOf(st: ScanState): Estimate {
    if st.est.Some? then st.est.value else Measured(st.time)
  }

  /** What the scan keeps true: the tally is that of the counted bitrates;
      while undecided the time is the sum of the decoded durations and no
      cutoff was passed with a constant bitrate; a Xing estimate multiplies
      that sum by a non-zero count before any header was counted; an
      extrapolation happens at the cutoff. A decided scan never waits for
      more data. */
  predicate ScanInv(st: ScanState) {
    && st.tally == Tallied(st.rates)
    && match st.est
       case None => st.time == SumOf(st.durations) && VbrByCutoff(st.rates)
       case Some(Measured(_)) => false
       case Some(FromXing(t, k)) =>
         st.s.error != BufLen && st.rates == [] && k > 0 && t == SumOf(st.durations) * k
       case Some(Extrapolated(t, size, tag, used)) =>
         st.s.error != BufLen && Cutoff(st.tally) && t == SumOf(st.durations)
         && size == |st.src.bytes| && tag == st.tagsize && used == st.consumed
  }

  /** Zero-byte skipping stays armed through a header pass unless a tag
      reached the window end, which disarms it in no other way. */
  predicate Rearmed(st: ScanState, r: ScanState) {
    r.crossings >= st.crossings && (r.depadded <==> st.depadded && r.crossings == st.crossings)
  }

  /** Counting a header keeps the invariant of an undecided scan that is
      not waiting for data. */
  lemma CountHeaderKeeps(c: ScanState, b: nat)
    requires ScanInv(c) && c.est.None? && c.s.error != BufLen
    ensures ScanInv(CountHeader(c, b).0)
    ensures CountHeader(c, b).0.est.Some? ==> CountHeader(c, b).1 == Leave
  {
    assert (c.rates + [b])[..|c.rates|] == c.rates;
    if !Cutoff(Count(c.tally, b)) {
      VbrByCutoffMeans(c.rates);
      CountKeepsGuard(c.rates, b);
      VbrByCutoffMeans(c.rates + [b]);
    }
  }

  /** The first frame keeps the invariant: a Xing estimate comes before any
      header was counted. */
  lemma FirstFrameKeeps(e: Engine, w: seq<byte>, timed: ScanState, h: Header)
    requires Within(timed.s, |w|) && ScanInv(timed) && timed.est.None?
    requires timed.tally.frames == 0 && timed.s.error == NoError
    ensures ScanInv(FirstFrame(e, w, timed, h).0)
    ensures FirstFrame(e, w, timed, h).0.est.Some? ==> FirstFrame(e, w, timed, h).1 == Leave
  {
    TalliedCounts(timed.rates);
    var f := e.frameDecode(w, timed.s, h);
    var s2 := After(timed.s, f);
    if (f.status == NoError || Recoverable(s2.error)) && Xing.XingFrames(f.anc) == 0 {
      CountHeaderKeeps(timed.(s := s2), h.bitrate);
    }
  }

  /** One header pass of an undecided scan keeps the invariant and decides
      the scan only by leaving the loop. */
  lemma HeaderStepKeeps(e: Engine, w: seq<byte>, st: ScanState)
    requires Within(st.s, |w|) && ScanInv(st) && st.est.None?
    ensures ScanInv(HeaderStep(e, w, st).0)
    ensures HeaderStep(e, w, st).0.est.Some? ==> HeaderStep(e, w, st).1 == Leave
  {
    var s0 := st.s.(error := NoError);
    var d := e.headerDecode(w, s0);
    var s1 := After(s0, d);
    if d.status == NoError {
      SumOfAppend(st.durations, d.header.duration);
      var timed := st.(s := s1, time := st.time + d.header.duration,
                       durations := st.durations + [d.header.duration],
                       consumed := st.consumed + (s1.nextFrame - s1.thisFrame));
      if st.tally.frames == 0 {
        assert HeaderStep(e, w, st) == FirstFrame(e, w, timed, d.header);
        FirstFrameKeeps(e, w, timed, d.header);
      } else {
        assert HeaderStep(e, w, st) == CountHeader(timed, d.header.bitrate);
        CountHeaderKeeps(timed, d.header.bitrate);
      }
    } else {
      assert HeaderStep(e, w, st).0 == st.(s := s1);
    }
  }

  /** The effect of one header pass on what getDuration accumulates. A
      failed header changes nothing of it; the loop is left exactly for an
      unrecoverable error and a tag is skipped exactly when sync was lost.
      A decoded header adds its duration and frame bytes; it is counted
      unless it is the first frame and that frame's decode failed
      unrecoverably or carried a Xing count. A counted header extends the
      tally by its bitrate, and the loop is left exactly at the cutoff. */
  lemma HeaderStepEffect(e: Engine, w: seq<byte>, st: ScanState)
    requires Within(st.s, |w|) && st.est.None?
    ensures var s0 := st.s.(error := NoError);
      var d := e.headerDecode(w, s0);
      var s1 := After(s0, d);
      var f := e.frameDecode(w, s1, d.header);
      var s2 := After(s1, f);
      var counted := d.status == NoError
        && (st.tally.frames > 0 || ((f.status == NoError || Recoverable(s2.error)) && Xing.XingFrames(f.anc) == 0));
      var (r, pass) := HeaderStep(e, w, st);
      && (d.status != NoError ==>
            r.time == st.time && r.consumed == st.consumed && r.durations == st.durations
            && r.est.None? && (pass == Leave <==> !Recoverable(d.status))
            && (pass == Resync <==> d.status == LostSync))
      && (d.status == NoError ==>
            r.durations == st.durations + [d.header.duration]
            && r.consumed == st.consumed + (s1.nextFrame - s1.thisFrame) && pass != Resync)
      && (counted ==>
            r.rates == st.rates + [d.header.bitrate] && r.tally == Count(st.tally, d.header.bitrate)
            && r.time == st.time + d.header.duration
            && (pass == Leave <==> Cutoff(r.tally)) && (r.est.Some? <==> Cutoff(r.tally)))
      && (!counted ==> r.rates == st.rates && r.tally == st.tally)
  {
  }

  /** The Xing shortcut: a pass ends the scan with a Xing estimate exactly
      when its header decodes, no header has been counted yet, the frame
      decodes or fails recoverably, and its ancillary data carry a
      non-zero frame count; the estimate multiplies the time by it. */
  lemma XingShortcut(e: Engine, w: seq<byte>, st: ScanState)
    requires Within(st.s, |w|) && st.est.None?
    ensures var s0 := st.s.(error := NoError);
      var d := e.headerDecode(w, s0);
      var s1 := After(s0, d);
      var f := e.frameDecode(w, s1, d.header);
      var s2 := After(s1, f);
      var (r, pass) := HeaderStep(e, w, st);
      && ((r.est.Some? && r.est.value.FromXing?) <==>
           d.status == NoError && st.tally.frames == 0
           && (f.status == NoError || Recoverable(s2.error)) && Xing.XingFrames(f.anc) != 0)
      && (r.est.Some? && r.est.value.FromXing? ==>
           pass == Leave && r.est.value.frames == Xing.XingFrames(f.anc)
           && r.est.value.time == (st.time + d.header.duration) * Xing.XingFrames(f.anc))
  {
  }

  /** The header loop keeps the invariant of an undecided scan; zero-byte
      skipping is disarmed only by tags reaching the window end. */
  lemma {:induction false} HeaderRunKeeps(e: Engine, w: seq<byte>, st: ScanState, fuel: nat)
    requires Within(st.s, |w|) && ScanInv(st) && st.est.None?
    ensures ScanInv(HeaderRun(e, w, st, fuel).0)
    ensures Rearmed(st, HeaderRun(e, w, st, fuel).0)
    decreases fuel
  {
    if fuel > 0 {
      var (next, pass) := HeaderStep(e, w, st);
      var r := if pass == Resync then TagSkipped(w, next) else next;
      PassKeeps(e, w, st, r, pass == Leave);
      HeaderRunStep(e, w, st, fuel, r, pass == Leave);
      if pass != Leave {
        HeaderRunKeeps(e, w, r, fuel - 1);
      }
    }
  }

  /** A whole pass, tag skip included, keeps the invariant, leaves the
      scan undecided unless it leaves the loop, and disarms zero-byte
      skipping only by a tag reaching the window end. */
  lemma PassKeeps(e: Engine, w: seq<byte>, st: ScanState, r: ScanState, stop: bool)
    requires Within(st.s, |w|) && ScanInv(st) && st.est.None?
    requires var (next, pass) := HeaderStep(e, w, st);
      r == (if pass == Resync then TagSkipped(w, next) else next) && (stop <==> pass == Leave)
    ensures ScanInv(r) && (!stop ==> r.est.None?) && Rearmed(st, r)
  {
    HeaderStepKeeps(e, w, st);
  }

  /** A fill leaves an undecided scan undecided and keeps its invariant. */
  lemma FillKeeps(w: seq<byte>, st: ScanState)
    requires Within(st.s, |w|) && ScanInv(st) && st.est.None?
    ensures ScanInv(Fill(w, st).1) && Fill(w, st).1.est.None?
  {
    var r := Fill(w, st).1;
    assert r.tally == st.tally && r.rates == st.rates && r.est == st.est;
    assert r.time == st.time && r.durations == st.durations;
  }

  /** The outer loop keeps the invariant. */
  lemma {:induction false} ScanRunKeeps(e: Engine, w: seq<byte>, st: ScanState, fuel: nat)
    requires Within(st.s, |w|) && ScanInv(st) && st.est.None?
    ensures ScanInv(ScanRun(e, w, st, fuel))
    decreases fuel
  {
    if fuel > 0 {
      var f := Fill(w, st);
      assert ScanRun(e, w, st, fuel) == ScanFilled(e, f, fuel);
      FillKeeps(w, st);
      ScanFilledKeeps(e, f, fuel);
    }
  }

  /** The scan of a filled window keeps the invariant. */
  lemma {:induction false} ScanFilledKeeps(e: Engine, f: (seq<byte>, ScanState, nat), fuel: nat)
    requires fuel > 0 && Within(f.1.s, |f.0|) && ScanInv(f.1) && f.1.est.None?
    ensures ScanInv(ScanFilled(e, f, fuel))
    decreases fuel, 0
  {
    var (moved, filled, count) := f;
    if count > 0 {
      HeaderRunKeeps(e, moved, filled, fuel - 1);
      var (scanned, left) := HeaderRun(e, moved, filled, fuel - 1);
      if scanned.s.error == BufLen {
        assert ScanFilled(e, f, fuel) == ScanRun(e, moved, scanned, left);
        ScanRunKeeps(e, moved, scanned, left);
      }
    }
  }

  /** What getDuration finds. The tally is that of the counted bitrates
      and the file can be rewound to where it began. A measured time is
      the sum of all decoded durations, and it went past 25 counted headers
      only after a bitrate change. A Xing estimate is that sum times a
      non-zero frame count, reached before any header was counted. An
      extrapolation sums exactly 25 headers of one bitrate and carries the
      file size, the last tag size and the bytes consumed. */
  lemma ScanOutcome(e: Engine, w: seq<byte>, src: Source, fuel: nat)
    ensures var st := ScanRun(e, w, Initial(src), fuel);
      && st.tally == Tallied(st.rates)
      && Rewound(st.src) == Rewound(src)
      && match EstimateOf(st)
         case Measured(t) => t == SumOf(st.durations) && PastCutoffOnlyIfVbr(st.rates)
         case FromXing(t, k) => st.rates == [] && k > 0 && t == SumOf(st.durations) * k
         case Extrapolated(t, size, tag, used) =>
           t == SumOf(st.durations) && |st.rates| == CutoffFrames
           && (forall i :: 0 <= i < |st.rates| ==> st.rates[i] == st.rates[0])
           && size == |src.bytes| && tag == st.tagsize && used == st.consumed
  {
    var st := ScanRun(e, w, Initial(src), fuel);
    ScanRunKeeps(e, w, Initial(src), fuel);
    CutoffMeansConstant(st.rates);
    VbrByCutoffMeans(st.rates);
  }

  /** Zero bytes are skipped at most once per arming: a fill that follows
      a header loop skips leading zeros only when a tag reached the window
      end during that loop. */
  lemma RepadOnlyAfterCrossing(e: Engine, w: seq<byte>, st: ScanState, fuel: nat)
    requires Within(st.s, |w|) && ScanInv(st) && st.est.None?
    requires Fill(w, st).2 > 0
    ensures var (moved, filled, _) := Fill(w, st);
      var scanned := HeaderRun(e, moved, filled, fuel).0;
      var (again, _, count) := Fill(moved, scanned);
      (count > 0 && scanned.crossings == filled.crossings ==> Fill(moved, scanned).1.s.thisFrame == 0)
  {
    var (moved, filled, _) := Fill(w, st);
    HeaderRunKeeps(e, moved, filled, fuel);
  }

  /** At a lost sync: the ID3 tag size at this_frame, then the skip. */
  method SkipTag(w: seq<byte>, st: ScanState) returns (r: ScanState)
    requires Within(st.s, |w|)
    ensures r == TagSkipped(w, st)
  {
    var available := st.s.bufEnd - st.s.thisFrame;
    var tagsize := Id3.GetId3TagSize(w[st.s.thisFrame..st.s.bufEnd]);
    r := st.(tagsize := tagsize);
    if tagsize > 0 {
      var j := TagJump(tagsize, available);
      r := r.(src := SeekForward(r.src, j.seek), s := Skip(r.s, j.skip),
              depadded := if j.repad then false else r.depadded,
              crossings := r.crossings + if j.repad then 1 else 0);
    }
  }

  /** One pass of the header loop, as the source writes it, on the bytes of
      the window; also whether it leaves the loop. */
  method DecodeHeader(e: Engine, w: seq<byte>, st: ScanState) returns (r: ScanState, stop: bool)
    requires Within(st.s, |w|)
    ensures var (next, pass) := HeaderStep(e, w, st);
      && r == (if pass == Resync then TagSkipped(w, next) else next)
      && (stop <==> pass == Leave)
  {
    r, stop := st.(s := st.s.(error := NoError)), true;
    var d := e.headerDecode(w, r.s);
    var header := d.header;
    r := r.(s := After(r.s, d));
    if d.status != NoError {
      if r.s.error != BufLen && Recoverable(r.s.error) {
        stop := false;
        if r.s.error == LostSync {
          r := SkipTag(w, r);
        }
      }
      return;
    }
    r := r.(time := r.time + header.duration, durations := r.durations + [header.duration],
            consumed := r.consumed + (r.s.nextFrame - r.s.thisFrame));
    if r.tally.frames == 0 {
      var f := e.frameDecode(w, r.s, header);
      r := r.(s := After(r.s, f));
      if f.status != NoError && !Recoverable(r.s.error) {
        return;
      }
      var frames := Xing.XingFrames(f.anc);
      if frames != 0 {
        r := r.(time := r.time * frames);
        r := r.(est := Some(FromXing(r.time, frames)));
        return;
      }
    }
    r := r.(tally := Count(r.tally, header.bitrate), rates := r.rates + [header.bitrate]);
    if Cutoff(r.tally) {
      r := r.(est := Some(Extrapolated(r.time, |r.src.bytes|, r.tagsize, r.consumed)));
      return;
    }
    stop := false;
  }

  /** The header loop on the bytes of the window, one unit of `fuel` per
      header decode. */
  method DecodeHeaders(e: Engine, w: seq<byte>, st: ScanState, fuel: nat) returns (r: ScanState, left: nat)
    requires Within(st.s, |w|)
    ensures (r, left) == HeaderRun(e, w, st, fuel)
  {
    r, left := st, fuel;
    while left > 0
      invariant Within(r.s, |w|)
      invariant HeaderRun(e, w, r, left) == HeaderRun(e, w, st, fuel)
      decreases left
    {
      var stop;
      r, stop := HeaderPass(e, w, r, left);
      left := left - 1;
      if stop {
        return;
      }
    }
  }

  /** One pass of the header loop, counted against the loop's fuel. */
  method HeaderPass(e: Engine, w: seq<byte>, st: ScanState, fuel: nat) returns (r: ScanState, stop: bool)
    requires Within(st.s, |w|) && fuel > 0
    ensures Within(r.s, |w|)
    ensures HeaderRun(e, w, st, fuel) == if stop then (r, fuel - 1) else HeaderRun(e, w, r, fuel - 1)
  {
    r, stop := DecodeHeader(e, w, st);
    HeaderRunStep(e, w, st, fuel, r, stop);
  }

  /** One header pass is the first step of the header loop. */
  lemma HeaderRunStep(e: Engine, w: seq<byte>, st: ScanState, fuel: nat, r: ScanState, stop: bool)
    requires Within(st.s, |w|) && fuel > 0
    requires var (next, pass) := HeaderStep(e, w, st);
      r == (if pass == Resync then TagSkipped(w, next) else next) && (stop <==> pass == Leave)
    ensures Within(r.s, |w|)
    ensures HeaderRun(e, w, st, fuel) == if stop then (r, fuel - 1) else HeaderRun(e, w, r, fuel - 1)
  {
  }

  /** The top of the outer loop, as the source writes it: carry, read,
      skip zero bytes, rebuffer. */
  method FillWindow(buf: array<byte>, st: ScanState) returns (r: ScanState, count: nat)
    requires Within(st.s, buf.Length)
    modifies buf
    ensures (buf[..], r, count) == Fill(old(buf[..]), st)
  {
    ghost var w := buf[..];
    var leftover := st.s.bufEnd - st.s.nextFrame;
    MoveToFront(buf, st.s.thisFrame, leftover);
    ghost var moved := buf[..];
    var after;
    count, after := ReadInto(buf, leftover, buf.Length - leftover, st.src);
    CarryShape(w, moved, buf[..], st.s, st.src, count);
    r := st.(src := after);
    var padding := 0;
    if count > 0 {
      if !r.depadded {
        padding := LeadingZeros(buf, count);
      }
      r := r.(depadded := true, s := Rebuffer(r.s, padding, leftover + count - padding));
    }
    FillIs(w, st, buf[..], r, count, padding);
  }

  /** The de-padding loop: the zero bytes at the front of what was read. */
  method LeadingZeros(buf: array<byte>, count: nat) returns (padding: nat)
    requires count <= buf.Length
    ensures padding == ZeroRun(buf[..count])
  {
    padding := 0;
    while padding < count && buf[padding] == 0
      invariant padding <= count
      invariant forall k :: 0 <= k < padding ==> buf[k] == 0
      decreases count - padding
    {
      padding := padding + 1;
    }
    ZeroRunUnique(buf[..count], padding);
  }

  /** A carried and read window, with the zero bytes counted, is the fill. */
  lemma FillIs(w: seq<byte>, st: ScanState, moved: seq<byte>, r: ScanState, count: nat, padding: nat)
    requires Within(st.s, |w|)
    requires count == ReadCount(st.src, |w| - Leftover(st.s))
    requires moved == Carried(w, st.s, st.src, count)
    requires count > 0 ==> padding == if st.depadded then 0 else ZeroRun(moved[..count])
    requires padding <= count
    requires r == if count == 0 then st.(src := AfterRead(st.src, |w| - Leftover(st.s)))
      else st.(src := AfterRead(st.src, |w| - Leftover(st.s)), depadded := true,
               s := Rebuffer(st.s, padding, Leftover(st.s) + count - padding))
    ensures Fill(w, st) == (moved, r, count)
  {
  }

  /** The window after the carry and the read, as one sequence. */
  lemma CarryShape(window: seq<byte>, moved: seq<byte>, after: seq<byte>, s: Stream, src: Source, count: nat)
    requires Within(s, |window|) && |moved| == |window| && |after| == |window|
    requires count == ReadCount(src, |window| - Leftover(s))
    requires moved[..Leftover(s)] == window[s.thisFrame..s.thisFrame + Leftover(s)]
    requires moved[Leftover(s)..] == window[Leftover(s)..]
    requires after[Leftover(s)..Leftover(s) + count] == Taken(src, |window| - Leftover(s))
    requires after[..Leftover(s)] == moved[..Leftover(s)]
    requires after[Leftover(s) + count..] == moved[Leftover(s) + count..]
    ensures after == Carried(window, s, src, count)
  {
    ReadKeepsOrder(src, |window| - Leftover(s));
    MoveThenRead(window, moved, after, s.thisFrame, Leftover(s), Taken(src, |window| - Leftover(s)));
  }

  /** One round of the outer loop of getDuration, as the source writes it;
      also whether the loop ends here. */
  method ScanPass(e: Engine, buf: array<byte>, st: ScanState, fuel: nat)
    returns (r: ScanState, left: nat, done: bool)
    requires Within(st.s, buf.Length) && fuel > 0
    modifies buf
    ensures Within(r.s, buf.Length) && left < fuel
    ensures ScanRun(e, old(buf[..]), st, fuel) == if done then r else ScanRun(e, buf[..], r, left)
  {
    var filled, count := FillWindow(buf, st);
    var moved := buf[..];
    r, left, done := HeaderPhase(e, moved, filled, count, fuel);
    assert buf[..] == moved;
  }

  /** The rest of a round: the header loop, unless nothing was read. */
  method HeaderPhase(e: Engine, moved: seq<byte>, filled: ScanState, count: nat, fuel: nat)
    returns (r: ScanState, left: nat, done: bool)
    requires fuel > 0 && Within(filled.s, |moved|)
    ensures Within(r.s, |moved|) && left < fuel
    ensures ScanFilled(e, (moved, filled, count), fuel) == if done then r else ScanRun(e, moved, r, left)
  {
    r, left := filled, fuel - 1;
    if count == 0 {
      done := true;
    } else {
      r, left := DecodeHeaders(e, moved, filled, fuel - 1);
      done := r.s.error != BufLen;
      HeaderPhaseIs(e, moved, filled, count, fuel, r, left);
    }
  }

  /** The header loop's result decides the rest of the round. */
  lemma HeaderPhaseIs(e: Engine, moved: seq<byte>, filled: ScanState, count: nat, fuel: nat,
                      r: ScanState, left: nat)
    requires fuel > 0 && Within(filled.s, |moved|) && count > 0
    requires (r, left) == HeaderRun(e, moved, filled, fuel - 1)
    ensures ScanFilled(e, (moved, filled, count), fuel)
      == if r.s.error != BufLen then r else ScanRun(e, moved, r, left)
  {
  }

  /** getDuration: fills the window again and again while the header loop
      stops for more data, then rewinds the file. `fuel` bounds the number
      of fills and header decodes together. */
  method ScanDuration(e: Engine, buf: array<byte>, src: Source, fuel: nat)
    returns (est: Estimate, next: Source)
    modifies buf
    ensures est == EstimateOf(ScanRun(e, old(buf[..]), Initial(src), fuel))
    ensures next == Rewound(src)
  {
    ghost var final := ScanRun(e, buf[..], Initial(src), fuel);
    var st := Initial(src);
    var steps := fuel;
    var done := false;
    while steps > 0 && !done
      invariant Within(st.s, buf.Length)
      invariant done ==> st == final
      invariant !done ==> ScanRun(e, buf[..], st, steps) == final
      decreases steps
    {
      st, steps, done := ScanPass(e, buf, st, steps);
    }
    est := if st.est.Some? then st.est.value else Measured(st.time);
    next := Rewound(st.src);
  }

  /** What start and open do with a new window: when `scan`, getDuration
      (which leaves the file rewound), then one fread filling the window
      from its start. */
  method ScanAndLoad(e: Engine, buf: array<byte>, src: Source, scan: bool, fuel: nat)
    returns (est: Estimate, count: nat, next: Source)
    modifies buf
    ensures var start := if scan then Rewound(src) else src;
      count == ReadCount(start, buf.Length) && next == AfterRead(start, buf.Length)
      && count <= buf.Length && buf[..count] == Taken(start, buf.Length)
    ensures scan ==> est == EstimateOf(ScanRun(e, old(buf[..]), Initial(src), fuel))
  {
    var start := src;
    est := Measured(0);
    if scan {
      var scanned, rewound := ScanDuration(e, buf, src, fuel);
      est, start := scanned, rewound;
    }
    count, next := ReadInto(buf, 0, buf.Length, start);
    assert buf[..count] == buf[0..count];
  }
}
