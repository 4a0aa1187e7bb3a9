/** The byte and sample plumbing both libmad front ends build around the
    engine: the FILE* byte source, the window refill with carry-over
    (readMpgFile / fileRead), tag skipping (consumeId3Tag) and the
    interleaved, clamped sample extraction of decode / mpegRead. */
module MadStream {
  import opened Wrappers
  import opened MadEngine
  import opened Arithmetic
  import Id3

  /** A file opened for reading: its bytes, the read position, and whether
      the device fails (then fread delivers nothing and ferror is set). */
  datatype Source = Source(bytes: seq<byte>, pos: nat, faulty: bool)

  /** The bytes fread can still deliver. */
  function Remaining(src: Source): seq<byte> {
    if src.faulty || src.pos >= |src.bytes| then [] else src.bytes[src.pos..]
  }

  /** fread(dst, 1, n, f): the number of bytes delivered. */
  function ReadCount(src: Source, n: nat): (r: nat)
    ensures r <= n && r <= |Remaining(src)|
    ensures r < n ==> r == |Remaining(src)|
  {
    if n < |Remaining(src)| then n else |Remaining(src)|
  }

  /** A read of `n` bytes that comes up short on a device error. */
  predicate ReadFails(src: Source, n: nat) {
    ReadCount(src, n) != n && src.faulty
  }

  /** The bytes fread delivers. */
  function Taken(src: Source, n: nat): seq<byte> {
    Remaining(src)[..ReadCount(src, n)]
  }

  function AfterRead(src: Source, n: nat): Source {
    src.(pos := src.pos + ReadCount(src, n))
  }

  /** fseek(f, k, SEEK_CUR) forward; past the end, fread delivers nothing. */
  function SeekForward(src: Source, k: nat): Source { src.(pos := src.pos + k) }

  /** rewind(f) */
  function Rewound(src: Source): Source { src.(pos := 0) }

  /** A read takes a prefix of what is left and leaves the rest in order. */
  lemma ReadKeepsOrder(src: Source, n: nat)
    ensures Taken(src, n) + Remaining(AfterRead(src, n)) == Remaining(src)
    ensures |Taken(src, n)| == ReadCount(src, n)
  {
    var k := ReadCount(src, n);
    if !src.faulty && src.pos < |src.bytes| {
      if src.pos + k < |src.bytes| {
        assert Remaining(AfterRead(src, n)) == src.bytes[src.pos..][k..];
      } else {
        assert Remaining(AfterRead(src, n)) == [];
      }
    }
  }

  /** memmove(buf, buf + from, len), as an ascending copy; it also serves
      for the memcpy of getDuration, whose regions overlap the same way. */
  method MoveToFront(buf: array<byte>, from: nat, len: nat)
    requires from + len <= buf.Length
    modifies buf
    ensures buf[..len] == old(buf[from..from + len])
    ensures buf[len..] == old(buf[len..])
  {
    var i := 0;
    while i < len
      invariant 0 <= i <= len
      invariant forall k :: 0 <= k < i ==> buf[k] == old(buf[from + k])
      invariant forall k :: i <= k < buf.Length ==> buf[k] == old(buf[k])
    {
      buf[i] := buf[from + i];
      i := i + 1;
    }
  }

  /** fread(buf + at, 1, n, f) */
  method ReadInto(buf: array<byte>, at: nat, n: nat, src: Source) returns (count: nat, next: Source)
    requires at + n <= buf.Length
    modifies buf
    ensures count == ReadCount(src, n) && next == AfterRead(src, n)
    ensures buf[at..at + count] == Taken(src, n)
    ensures buf[..at] == old(buf[..at]) && buf[at + count..] == old(buf[at + count..])
  {
    var data := Remaining(src);
    count := ReadCount(src, n);
    var i := 0;
    while i < count
      invariant 0 <= i <= count
      invariant forall k :: 0 <= k < at ==> buf[k] == old(buf[k])
      invariant forall k :: 0 <= k < i ==> buf[at + k] == data[k]
      invariant forall k :: at + i <= k < buf.Length ==> buf[k] == old(buf[k])
    {
      buf[at + i] := data[i];
      i := i + 1;
    }
    next := AfterRead(src, n);
  }

  /** The window after a refill: the unconsumed tail bufend - next_frame
      moved unchanged to the front, as many bytes as the file delivers
      read behind it, and the rest of the buffer as it was. */
  ghost function Refilled(window: seq<byte>, s: Stream, src: Source): (r: seq<byte>)
    requires Within(s, |window|)
    ensures |r| == |window|
  {
    var left := Leftover(s);
    var n := |window| - left;
    window[s.nextFrame..s.bufEnd] + Taken(src, n) + window[left + ReadCount(src, n)..]
  }

  /** The refill both readMpgFile and fileRead perform. */
  method Refill(buf: array<byte>, s: Stream, src: Source) returns (count: nat, next: Source)
    requires Within(s, buf.Length)
    modifies buf
    ensures count == ReadCount(src, buf.Length - Leftover(s)) && next == AfterRead(src, buf.Length - Leftover(s))
    ensures buf[..] == Refilled(old(buf[..]), s, src)
  {
    ghost var window := buf[..];
    var left := s.bufEnd - s.nextFrame;
    MoveToFront(buf, s.nextFrame, left);
    ghost var moved := buf[..];
    count, next := ReadInto(buf, left, buf.Length - left, src);
    RefillShape(window, moved, buf[..], s, src, left, count);
  }

  /** The two steps of a refill, on values: the tail moved to the front,
      then the bytes read behind it, give the refilled window. */
  lemma RefillShape(window: seq<byte>, moved: seq<byte>, after: seq<byte>, s: Stream, src: Source, left: nat, count: nat)
    requires Within(s, |window|) && |moved| == |window| && |after| == |window|
    requires left == Leftover(s) && count == ReadCount(src, |window| - left)
    requires moved[..left] == window[s.nextFrame..s.nextFrame + left] && moved[left..] == window[left..]
    requires after[left..left + count] == Taken(src, |window| - left)
    requires after[..left] == moved[..left] && after[left + count..] == moved[left + count..]
    ensures after == Refilled(window, s, src)
  {
    ReadKeepsOrder(src, |window| - left);
    MoveThenRead(window, moved, after, s.nextFrame, left, Taken(src, |window| - left));
  }

  /** A move of `len` bytes from `from` to the front, then a read of `t`
      behind them: the result is the moved bytes, `t`, and the rest of the
      original window. */
  lemma MoveThenRead(window: seq<byte>, moved: seq<byte>, after: seq<byte>, from: nat, len: nat, t: seq<byte>)
    requires from + len <= |window| && |moved| == |window| && |after| == |window| && len + |t| <= |window|
    requires moved[..len] == window[from..from + len] && moved[len..] == window[len..]
    requires after[..len] == moved[..len] && after[len..len + |t|] == t && after[len + |t|..] == moved[len + |t|..]
    ensures after == window[from..from + len] + t + window[len + |t|..]
  {
    assert moved[len + |t|..] == moved[len..][|t|..];
    assert after == after[..len] + after[len..len + |t|] + after[len + |t|..];
  }

  /** Where a refill puts things: the tail at the front, the bytes read
      behind it, both inside the window. */
  lemma RefilledLayout(window: seq<byte>, s: Stream, src: Source)
    requires Within(s, |window|)
    ensures var n := |window| - Leftover(s);
      var r := Refilled(window, s, src);
      Leftover(s) + ReadCount(src, n) <= |window|
      && r[..Leftover(s)] == window[s.nextFrame..s.bufEnd]
      && r[Leftover(s)..Leftover(s) + ReadCount(src, n)] == Taken(src, n)
  {
    var n := |window| - Leftover(s);
    var t, x := window[s.nextFrame..s.bufEnd], Taken(src, n);
    var r := Refilled(window, s, src);
    assert r == t + x + window[Leftover(s) + ReadCount(src, n)..];
    assert r[..|t|] == t;
    assert r[|t|..|t| + |x|] == x;
  }

  /** The input not yet decoded: the unconsumed part of the window, then
      what the file still holds. */
  ghost function PendingOf(window: seq<byte>, s: Stream, src: Source): seq<byte>
    requires Within(s, |window|)
  {
    window[s.nextFrame..s.bufEnd] + Remaining(src)
  }

  /** A refill followed by mad_stream_buffer over the carried tail and the
      bytes read leaves the pending input as it was: no byte is lost,
      repeated or reordered. */
  lemma {:induction false} RefillKeepsPending(window: seq<byte>, s: Stream, src: Source)
    requires Within(s, |window|)
    ensures var n := |window| - Leftover(s);
      var s' := Rebuffer(s, 0, Leftover(s) + ReadCount(src, n)).(error := NoError);
      Within(s', |window|)
      && PendingOf(Refilled(window, s, src), s', AfterRead(src, n)) == PendingOf(window, s, src)
  {
    var n := |window| - Leftover(s);
    RefilledLayout(window, s, src);
    ReadKeepsOrder(src, n);
    PrefixThenRest(Refilled(window, s, src), window[s.nextFrame..s.bufEnd], Taken(src, n), Remaining(AfterRead(src, n)));
  }

  /** A window holding `t` then `x` at its front, followed by `y`, is `t`
      followed by `x + y`. */
  lemma PrefixThenRest(w: seq<byte>, t: seq<byte>, x: seq<byte>, y: seq<byte>)
    requires |w| >= |t| + |x| && w[..|t|] == t && w[|t|..|t| + |x|] == x
    ensures w[..|t| + |x|] + y == t + (x + y)
  {
    assert w[..|t| + |x|] == w[..|t|] + w[|t|..|t| + |x|];
  }

  /** The window consumeId3Tag hands to getId3TagSize: it starts at
      this_frame, but its length is measured from next_frame. */
  function TagWindow(window: seq<byte>, s: Stream): seq<byte>
    requires Ordered(s) && s.bufEnd <= |window|
  {
    window[s.thisFrame..s.thisFrame + Leftover(s)]
  }

  /** The stream consumeId3Tag leaves: a tag found at this_frame skipped,
      then a resync whether or not there was one. */
  function TagResynced(e: Engine, window: seq<byte>, s: Stream): (r: Stream)
    requires Ordered(s) && s.bufEnd <= |window|
    ensures r.bufStart == s.bufStart && r.bufEnd == s.bufEnd && r.error == s.error && Ordered(r)
  {
    var tag := Id3.TagSize(TagWindow(window, s));
    Synced(e, window, if tag > 0 then Skip(s, tag) else s)
  }

  /** consumeId3Tag: skip a tag found at this_frame, then resync; reports
      whether a tag was skipped. */
  method ConsumeTag(e: Engine, window: seq<byte>, s: Stream) returns (skipped: bool, r: Stream)
    requires Ordered(s) && s.bufEnd <= |window|
    ensures var tag := Id3.TagSize(TagWindow(window, s));
      skipped == (tag > 0) && r == Synced(e, window, if tag > 0 then Skip(s, tag) else s)
    ensures r == TagResynced(e, window, s)
    ensures r.bufStart == s.bufStart && r.bufEnd == s.bufEnd && r.error == s.error && Ordered(r)
  {
    var tagsize := Id3.GetId3TagSize(window[s.thisFrame..s.thisFrame + (s.bufEnd - s.nextFrame)]);
    r := s;
    skipped := false;
    if tagsize > 0 {
      r := Skip(r, tagsize);
      skipped := true;
    }
    r := Synced(e, window, r);
  }

  /** The values channel by channel for one frame position, clamped. */
  function Channels(p: Pcm, i: nat, nch: nat): (r: seq<int>)
    requires nch <= 2 && i < |p.samples|
    ensures |r| == nch
  {
    if nch == 0 then []
    else if nch == 1 then [Clamp(Sample(p, 0, i))]
    else [Clamp(Sample(p, 0, i)), Clamp(Sample(p, 1, i))]
  }

  /** What decode / mpegRead store for `frames` frame positions starting at
      cursor `from`: all channels of a position, then the next position. */
  function Interleaved(p: Pcm, from: nat, frames: nat, nch: nat): (r: seq<int>)
    requires nch <= 2 && from + frames <= |p.samples|
    ensures |r| == frames * nch
  {
    if frames == 0 then []
    else Interleaved(p, from, frames - 1, nch) + Channels(p, from + frames - 1, nch)
  }

  /** Element `k` of the interleaved run is the clamped sample of channel
      k mod nch at frame position from + k / nch. */
  lemma {:induction false} InterleavedAt(p: Pcm, from: nat, frames: nat, nch: nat, k: nat)
    requires 1 <= nch <= 2 && from + frames <= |p.samples| && k < frames * nch
    ensures k / nch < frames
    ensures Interleaved(p, from, frames, nch)[k] == Clamp(Sample(p, k % nch, from + k / nch))
  {
    var last := (frames - 1) * nch;
    assert frames * nch == last + nch;
    if k < last {
      InterleavedAt(p, from, frames - 1, nch, k);
    } else {
      assert k - last < nch;
      assert k == (frames - 1) * nch + (k - last);
      DivModOf(frames - 1, nch, k - last);
    }
  }

  lemma DivModOf(q: nat, d: nat, r: nat)
    requires 1 <= d <= 2 && r < d
    ensures (q * d + r) / d == q && (q * d + r) % d == r
  {
    if d == 1 {
      assert q * d + r == q;
    } else {
      assert q * d + r == 2 * q + r;
    }
  }

  /** Every stored value is a clamped sample, inside the fixed-point range. */
  lemma InterleavedInRange(p: Pcm, from: nat, frames: nat, nch: nat, k: nat)
    requires 1 <= nch <= 2 && from + frames <= |p.samples| && k < frames * nch
    ensures -MadFOne <= Interleaved(p, from, frames, nch)[k] < MadFOne
  {
    InterleavedAt(p, from, frames, nch, k);
  }

  /** The inner loop of decode / mpegRead: for each frame position all
      channels are stored at consecutive indices, then the cursor advances. */
  method ExtractFrames(out: array<int>, at: nat, p: Pcm, from: nat, frames: nat, nch: nat)
    requires 1 <= nch <= 2 && from + frames <= |p.samples| && at + frames * nch <= out.Length
    modifies out
    ensures out[at..at + frames * nch] == Interleaved(p, from, frames, nch)
    ensures forall k :: 0 <= k < out.Length && !(at <= k < at + frames * nch) ==> out[k] == old(out[k])
    ensures out[..] == Spliced(old(out[..]), at, Interleaved(p, from, frames, nch))
  {
    var done: nat := 0;
    var cursor := from;
    var base: nat := at;
    while done < frames
      invariant cursor == from + done
      invariant Extracting(old(out[..]), out[..], p, from, frames, nch, at, done, base)
    {
      ExtractRoom(old(out[..]), out[..], p, from, frames, nch, at, done, base);
      ghost var before := out[..];
      StoreChannels(out, base, p, cursor, nch);
      ExtractStep(old(out[..]), before, out[..], p, from, frames, nch, at, done, base);
      done := done + 1;
      cursor := cursor + 1;
      base := base + nch;
    }
    ExtractDone(old(out[..]), out[..], p, from, frames, nch, at, base);
    SplicedOf(old(out[..]), out[..], at, Interleaved(p, from, frames, nch));
  }

  lemma ExtractDone(s0: seq<int>, s: seq<int>, p: Pcm, from: nat, frames: nat, nch: nat, at: nat, base: nat)
    requires Extracting(s0, s, p, from, frames, nch, at, frames, base)
    ensures at + frames * nch <= |s| && s[at..at + frames * nch] == Interleaved(p, from, frames, nch)
    ensures forall k :: 0 <= k < |s| && !(at <= k < at + frames * nch) ==> s[k] == s0[k]
  {
  }

  /** ExtractFrames after `done` frame positions: the array `s` holds the
      interleaved run from `at` up to `base` and is `s0` elsewhere. */
  ghost predicate Extracting(s0: seq<int>, s: seq<int>, p: Pcm, from: nat, frames: nat, nch: nat, at: nat, done: nat, base: nat)
  {
    1 <= nch <= 2 && from + frames <= |p.samples| && at + frames * nch <= |s0| == |s|
    && done <= frames && base == at + done * nch
    && s[at..base] == Interleaved(p, from, done, nch)
    && forall k :: 0 <= k < |s| && !(at <= k < base) ==> s[k] == s0[k]
  }

  lemma ExtractRoom(s0: seq<int>, s: seq<int>, p: Pcm, from: nat, frames: nat, nch: nat, at: nat, done: nat, base: nat)
    requires Extracting(s0, s, p, from, frames, nch, at, done, base) && done < frames
    ensures base + nch <= |s|
  {
    MulStrict(done, frames, nch);
  }

  /** Storing the channels of one more frame position after the run
      extends it by that position. */
  lemma ExtractStep(s0: seq<int>, s: seq<int>, s1: seq<int>, p: Pcm, from: nat, frames: nat, nch: nat, at: nat, done: nat, base: nat)
    requires Extracting(s0, s, p, from, frames, nch, at, done, base) && done < frames
    requires |s1| == |s| && base + nch <= |s|
    requires s1[base..base + nch] == Channels(p, from + done, nch)
    requires forall k :: 0 <= k < |s1| && !(base <= k < base + nch) ==> s1[k] == s[k]
    ensures Extracting(s0, s1, p, from, frames, nch, at, done + 1, base + nch)
  {
    assert s1[at..base] == s[at..base];
    assert s1[at..base + nch] == s1[at..base] + s1[base..base + nch];
    assert (done + 1) * nch == done * nch + nch;
  }

  /** One frame position: each channel's clamped sample at consecutive
      indices from `base`. */
  method StoreChannels(out: array<int>, base: nat, p: Pcm, cursor: nat, nch: nat)
    requires 1 <= nch <= 2 && cursor < |p.samples| && base + nch <= out.Length
    modifies out
    ensures out[base..base + nch] == Channels(p, cursor, nch)
    ensures forall k :: 0 <= k < out.Length && !(base <= k < base + nch) ==> out[k] == old(out[k])
  {
    var channel := 0;
    while channel < nch
      invariant 0 <= channel <= nch
      invariant forall c :: 0 <= c < channel ==> out[base + c] == Clamp(Sample(p, c, cursor))
      invariant forall k :: 0 <= k < out.Length && !(base <= k < base + channel) ==> out[k] == old(out[k])
    {
      out[base + channel] := Clamp(Sample(p, channel, cursor));
      channel := channel + 1;
    }
    assert out[base..base + nch] == Channels(p, cursor, nch);
  }

  /** The timer: the sum of the durations of the decoded frames. */
  function TotalDuration(hs: seq<Header>): nat {
    if hs == [] then 0 else TotalDuration(hs[..|hs| - 1]) + hs[|hs| - 1].duration
  }

  /** Each block has a channel count and a run of frame positions it holds. */
  predicate Runs(bs: seq<Pcm>, nchs: seq<nat>, runs: seq<nat>) {
    |bs| == |nchs| == |runs| && forall k :: 0 <= k < |bs| ==> nchs[k] <= 2 && runs[k] <= |bs[k].samples|
  }

  /** What a run of blocks delivers, one block after another: `runs[k]`
      frame positions from the start of block `bs[k]`, with `nchs[k]`
      channels each. */
  function Joined(bs: seq<Pcm>, nchs: seq<nat>, runs: seq<nat>): (r: seq<int>)
    requires Runs(bs, nchs, runs)
  {
    if bs == [] then []
    else
      var n := |bs| - 1;
      Joined(bs[..n], nchs[..n], runs[..n]) + Interleaved(bs[n], 0, runs[n], nchs[n])
  }

  /** One more block's run extends the joined samples by its interleaved
      frame positions. */
  lemma JoinedSnoc(bs: seq<Pcm>, nchs: seq<nat>, runs: seq<nat>, b: Pcm, nch: nat, run: nat)
    requires Runs(bs, nchs, runs) && nch <= 2 && run <= |b.samples|
    ensures Runs(bs + [b], nchs + [nch], runs + [run])
    ensures Joined(bs + [b], nchs + [nch], runs + [run]) == Joined(bs, nchs, runs) + Interleaved(b, 0, run, nch)
  {
    assert (bs + [b])[..|bs|] == bs;
    assert (nchs + [nch])[..|bs|] == nchs;
    assert (runs + [run])[..|bs|] == runs;
  }

  /** Every block was delivered whole, except perhaps the last when
      `partial`. */
  predicate Delivered(bs: seq<Pcm>, runs: seq<nat>, partial: bool)
    requires |bs| == |runs|
  {
    forall k :: 0 <= k < |runs| ==> runs[k] == |bs[k].samples| || (partial && k == |runs| - 1)
  }

  /** `w` with `v` written over it from index `at`, one value at a time. */
  function Spliced(w: seq<int>, at: nat, v: seq<int>): (r: seq<int>)
    requires at + |v| <= |w|
    ensures |r| == |w|
    decreases |v|
  {
    if v == [] then w else Spliced(w[at := v[0]], at + 1, v[1..])
  }

  /** A spliced value is the written value inside its range and the old one
      outside it. */
  lemma {:induction false} SplicedAt(w: seq<int>, at: nat, v: seq<int>, i: nat)
    requires at + |v| <= |w| && i < |w|
    ensures Spliced(w, at, v)[i] == if at <= i < at + |v| then v[i - at] else w[i]
    decreases |v|
  {
    if v != [] {
      SplicedAt(w[at := v[0]], at + 1, v[1..], i);
    }
  }

  /** Writing `a` and then `b` right after it is writing `a + b`. */
  lemma SplicedTwice(w: seq<int>, at: nat, a: seq<int>, once: seq<int>, next: nat, b: seq<int>)
    requires at + |a| + |b| <= |w| && once == Spliced(w, at, a) && next == at + |a|
    ensures Spliced(once, next, b) == Spliced(w, at, a + b)
  {
    forall i | 0 <= i < |w|
      ensures Spliced(once, next, b)[i] == Spliced(w, at, a + b)[i]
    {
      SplicedAt(once, next, b, i);
      SplicedAt(w, at, a, i);
      SplicedAt(w, at, a + b, i);
    }
  }

  /** Contents that hold `v` from `at` and agree with `before` elsewhere
      are the splice of `v` into `before`. */
  lemma SplicedOf(before: seq<int>, after: seq<int>, at: nat, v: seq<int>)
    requires |after| == |before| && at + |v| <= |before| && after[at..at + |v|] == v
    requires forall i :: 0 <= i < |after| && !(at <= i < at + |v|) ==> after[i] == before[i]
    ensures after == Spliced(before, at, v)
  {
    forall i | 0 <= i < |after|
      ensures after[i] == Spliced(before, at, v)[i]
    {
      SplicedAt(before, at, v, i);
      if at <= i < at + |v| {
        assert after[i] == after[at..at + |v|][i - at];
      }
    }
  }

  /** Splicing from index 0: the written prefix, the old rest. */
  lemma SplicedPrefix(w: seq<int>, after: seq<int>, v: seq<int>)
    requires |v| <= |w| && after == Spliced(w, 0, v)
    ensures after[..|v|] == v && forall i :: |v| <= i < |w| ==> after[i] == w[i]
  {
    forall i | 0 <= i < |w|
      ensures after[i] == if i < |v| then v[i] else w[i]
    {
      SplicedAt(w, 0, v, i);
    }
    assert after[..|v|] == v;
  }

  /** Every value lies in the clamp range. */
  predicate Clamped(w: seq<int>) {
    forall k :: 0 <= k < |w| ==> -MadFOne <= w[k] < MadFOne
  }

  lemma InterleavedClamped(p: Pcm, from: nat, frames: nat, nch: nat)
    requires nch <= 2 && from + frames <= |p.samples|
    ensures Clamped(Interleaved(p, from, frames, nch))
  {
    forall k | 0 <= k < frames * nch {
      InterleavedInRange(p, from, frames, nch, k);
    }
  }

  /** Whatever a run of blocks delivers is clamped. */
  lemma {:induction false} JoinedClamped(bs: seq<Pcm>, nchs: seq<nat>, runs: seq<nat>)
    requires Runs(bs, nchs, runs)
    ensures Clamped(Joined(bs, nchs, runs))
    decreases |bs|
  {
    if bs != [] {
      var n := |bs| - 1;
      JoinedClamped(bs[..n], nchs[..n], runs[..n]);
      InterleavedClamped(bs[n], 0, runs[n], nchs[n]);
    }
  }

  /** A clamped prefix of an array's contents, index by index. */
  lemma ClampedIndex(w: seq<int>, lo: nat, hi: nat)
    requires lo <= hi <= |w| && Clamped(w[lo..hi])
    ensures forall i :: lo <= i < hi ==> -MadFOne <= w[i] < MadFOne
  {
    forall i | lo <= i < hi
      ensures -MadFOne <= w[i] < MadFOne
    {
      assert w[i] == w[lo..hi][i - lo];
    }
  }

  /** One more block, with `nch` channels, and its run. */
  lemma Appended(bs: seq<Pcm>, nchs: seq<nat>, runs: seq<nat>, b: Pcm, nch: nat, run: nat)
    requires Runs(bs, nchs, runs) && Delivered(bs, runs, false) && nch <= 2 && run <= |b.samples|
    ensures Runs(bs + [b], nchs + [nch], runs + [run])
    ensures Delivered(bs + [b], runs + [run], true)
    ensures run == |b.samples| ==> Delivered(bs + [b], runs + [run], false)
    ensures Joined(bs + [b], nchs + [nch], runs + [run]) == Joined(bs, nchs, runs) + Interleaved(b, 0, run, nch)
  {
    JoinedSnoc(bs, nchs, runs, b, nch, run);
  }

  /** `n` copies of the channel count `c`: the widths of blocks all read
      with one channel count. */
  function Repeated(c: nat, n: nat): (r: seq<nat>)
    ensures |r| == n && forall k :: 0 <= k < n ==> r[k] == c
  {
    seq(n, k => c)
  }

  /** Repeating once more appends one copy. */
  lemma RepeatedSnoc(c: nat, n: nat)
    ensures Repeated(c, n + 1) == Repeated(c, n) + [c]
  {
    assert Repeated(c, n + 1)[..n] == Repeated(c, n);
  }

  /** A decode loop's progress over `w0`: `now` holds the joined runs of
      the blocks `bs`, block `k` read with `nchs[k]` channels, from index
      `start` up to `total`, and the old contents everywhere else. Every
      block but a `partial` last one is delivered whole. */
  ghost predicate Progress(w0: seq<int>, start: nat, total: nat, now: seq<int>,
                           bs: seq<Pcm>, nchs: seq<nat>, runs: seq<nat>, partial: bool)
  {
    Runs(bs, nchs, runs) && Delivered(bs, runs, partial)
    && total == start + |Joined(bs, nchs, runs)| && total <= |w0| == |now|
    && now == Spliced(w0, start, Joined(bs, nchs, runs))
  }

  /** Appending one more element to a history kept as a prefix plus the
      part recorded since. */
  lemma Regrouped<T>(a: seq<T>, b: seq<T>, x: T)
    ensures a + b + [x] == a + (b + [x])
  {
  }

  /** Nothing delivered yet. */
  lemma ProgressStart(w0: seq<int>, start: nat)
    requires start <= |w0|
    ensures Progress(w0, start, start, w0, [], [], [], false)
  {
  }

  /** The whole result: a clamped `head` written from index 0, then the
      progress after it; everything past the total keeps its old value. */
  lemma ProgressAfter(w0: seq<int>, head: seq<int>, now: seq<int>, total: nat,
                      bs: seq<Pcm>, nchs: seq<nat>, runs: seq<nat>, partial: bool)
    requires |head| <= |w0| && Clamped(head)
    requires Progress(Spliced(w0, 0, head), |head|, total, now, bs, nchs, runs, partial)
    ensures total <= |now| == |w0| && now[..total] == head + Joined(bs, nchs, runs)
    ensures forall i :: 0 <= i < total ==> -MadFOne <= now[i] < MadFOne
    ensures forall i :: total <= i < |w0| ==> now[i] == w0[i]
  {
    var tail := Joined(bs, nchs, runs);
    SplicedTwice(w0, 0, head, Spliced(w0, 0, head), |head|, tail);
    SplicedPrefix(w0, now, head + tail);
    JoinedClamped(bs, nchs, runs);
    ClampedIndex(now, 0, total);
  }

  /** One more delivery after a frame decode: the run of a new block `b`
      read with `nch` channels (`grew`), or nothing from the spent one,
      brings the progress to `total'` over the blocks `bs'`. A whole run
      keeps every block whole; a short one is the partial last. */
  lemma ProgressStep(w0: seq<int>, start: nat, total: nat, before: seq<int>, after: seq<int>,
                     bs: seq<Pcm>, nchs: seq<nat>, runs: seq<nat>,
                     b: Pcm, nch: nat, run: nat, added: seq<int>, grew: bool, partial: bool,
                     total': nat, bs': seq<Pcm>, nchs': seq<nat>, runs': seq<nat>)
    requires Progress(w0, start, total, before, bs, nchs, runs, false)
    requires total + |added| <= |before| && after == Spliced(before, total, added)
    requires if grew then nch <= 2 && run <= |b.samples| && added == Interleaved(b, 0, run, nch) else added == []
    requires grew && run < |b.samples| ==> partial
    requires total' == total + |added|
    requires if grew then bs' == bs + [b] && nchs' == nchs + [nch] && runs' == runs + [run]
             else bs' == bs && nchs' == nchs && runs' == runs
    ensures Progress(w0, start, total', after, bs', nchs', runs', partial)
  {
    var done := Joined(bs, nchs, runs);
    SplicedTwice(w0, start, done, before, total, added);
    if grew {
      Appended(bs, nchs, runs, b, nch, run);
      assert Delivered(bs', runs', partial);
    } else {
      assert done + added == done;
    }
  }

  /** The run of a new block `b`, read with `nch` channels and written
      right after the progress so far, extends it by that block. */
  lemma ProgressGrow(w0: seq<int>, start: nat, total: nat, before: seq<int>, after: seq<int>,
                     bs: seq<Pcm>, nchs: seq<nat>, runs: seq<nat>, b: Pcm, nch: nat, run: nat, partial: bool)
    requires Progress(w0, start, total, before, bs, nchs, runs, false)
    requires nch <= 2 && run <= |b.samples| && total + run * nch <= |before|
    requires after == Spliced(before, total, Interleaved(b, 0, run, nch))
    requires run < |b.samples| ==> partial
    ensures Progress(w0, start, total + run * nch, after, bs + [b], nchs + [nch], runs + [run], partial)
  {
    var added := Interleaved(b, 0, run, nch);
    ProgressStep(w0, start, total, before, after, bs, nchs, runs, b, nch, run, added, true, partial,
                 total + run * nch, bs + [b], nchs + [nch], runs + [run]);
  }

  /** The samples a block can deliver: what it has left, capped by the request. */
  function Share(p: Pcm, cursor: nat, nch: nat, pending: nat): nat
    requires cursor <= |p.samples|
  {
    Min(pending, (|p.samples| - cursor) * nch)
  }
}
