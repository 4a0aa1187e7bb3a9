/** AudioBuffer: a Buffer of samples with a sample rate, a channel count, a
    frame count and a frame cursor. The Buffer<float> base class is held
    as a component; the samples are the integers the MPEG reader stores
    (the conversion to float is not modelled). */
module AudioBufferModel {
  import opened Wrappers
  import opened BufferSpec
  import Buffers

  /** sizeof(float) */
  const FloatBytes: nat := 4

  class AudioBuffer {
    /** The Buffer<float> base: data_ and size_. */
    const samples: Buffers.Buffer<int>
    /** sampleRate_, numChannels_, numFrames_, framePos_ */
    var sampleRate: int
    var numChannels: int
    var numFrames: int
    var framePos: int

    /** The base buffer's zero element is the sample 0. */
    ghost predicate Valid()
      reads this
    {
      samples.zero == 0
    }

    /** AudioBuffer(numChannels): an empty buffer, rate, frame count and
        position 0. */
    constructor (numChannels: int)
      ensures Valid() && fresh(samples) && fresh(samples.data) && samples.data[..] == []
      ensures sampleRate == 0 && numFrames == 0 && framePos == 0 && this.numChannels == numChannels
    {
      samples := new Buffers.Buffer<int>(0, 0);
      sampleRate := 0;
      numFrames := 0;
      this.numChannels := numChannels;
      framePos := 0;
    }

    /** The copy constructor: the samples, rate and channel count of
        `source` and position 0; the frame count is taken from the
        source's channel count, as written. */
    constructor CopyOf(source: AudioBuffer)
      ensures Valid() && fresh(samples) && fresh(samples.data)
      ensures samples.data[..] == old(source.samples.data[..])
      ensures sampleRate == source.sampleRate && numChannels == source.numChannels
      ensures numFrames == source.numChannels && framePos == 0
    {
      var base := new Buffers.Buffer<int>(0, 0);
      base.Copy(source.samples);
      samples := base;
      sampleRate := source.sampleRate;
      numFrames := source.numChannels;
      numChannels := source.numChannels;
      framePos := 0;
    }

    /** operator=: copies samples, rate, frame and channel count; the
        position is set to the source's frame count. Assigning a buffer to
        itself (the base buffers are the same object) empties it. */
    method Assign(source: AudioBuffer)
      modifies this, samples
      ensures fresh(samples.data)
      ensures samples.data[..] == if source.samples == samples then [] else old(source.samples.data[..])
      ensures sampleRate == old(source.sampleRate) && numFrames == old(source.numFrames)
      ensures numChannels == old(source.numChannels) && framePos == old(source.numFrames)
    {
      var rate, frames, channels := source.sampleRate, source.numFrames, source.numChannels;
      samples.Copy(source.samples);
      sampleRate := rate;
      numFrames := frames;
      numChannels := channels;
      framePos := frames;
    }

    function Size(): nat
      reads this, samples
    {
      samples.data.Length
    }

    /** getAvailable(): the frames from the cursor to the end. */
    function Available(): int
      reads this
    {
      numFrames - framePos
    }

    /** getAvailable(numFrames): capped by the frames left. */
    function AvailableUpTo(n: int): (r: int)
      reads this
      ensures r <= n && r <= Available()
      ensures r == n || r == Available()
    {
      Min(n, numFrames - framePos)
    }

    /** isAvailable(numFrames) */
    predicate IsAvailable(n: int)
      reads this
    {
      framePos + n <= numFrames
    }

    /** hasAvailable(), isHead(), isEnd() */
    predicate HasAvailable()
      reads this
    {
      framePos < numFrames
    }

    predicate IsHead()
      reads this
    {
      framePos == 0
    }

    predicate IsEnd()
      reads this
    {
      framePos == numFrames
    }

    /** hasData(): the buffer holds exactly numFrames frames, and some. */
    predicate HasData()
      reads this, samples
    {
      Size() == numFrames * numChannels && Size() > 0
    }

    /** calcNumBytes(numFrames) */
    function CalcNumBytes(n: int): int
      reads this
    {
      n * numChannels * FloatBytes
    }

    /** calcNumBytes() */
    function CalcAllBytes(): nat
      reads this, samples
    {
      Size() * FloatBytes
    }

    /** getCurrent(): the index of the cursor's frame in the samples; the
        source asserts the cursor is not past the end. */
    function CurrentIndex(): int
      reads this
      requires framePos <= numFrames
    {
      framePos * numChannels
    }

    method SetSampleRate(rate: int)
      modifies this`sampleRate
      ensures sampleRate == rate
    {
      sampleRate := rate;
    }

    method SetNumChannels(n: int)
      modifies this`numChannels
      ensures numChannels == n
    {
      numChannels := n;
    }

    /** seek(framePos) */
    method Seek(pos: int)
      modifies this`framePos
      ensures framePos == pos
    {
      framePos := pos;
    }

    /** advance(inc) */
    method Advance(inc: int)
      modifies this`framePos
      ensures framePos == old(framePos) + inc
      ensures Available() == old(Available()) - inc
    {
      framePos := framePos + inc;
    }

    /** resize(size): clears first, so the old samples are gone and the new
        ones are zero; the frame count is size / numChannels when there are
        channels and memory (size > 0), else 0. */
    method Resize(size: nat)
      requires Valid()
      modifies samples
      modifies this`numFrames
      ensures samples.data[..] == Filled(0, size) && fresh(samples.data)
      ensures numFrames == FramesFor(size, numChannels)
    {
      samples.Clear();
      samples.Resize(size);
      assert samples.data[..] == Filled(0, size);
      numFrames := if numChannels > 0 && size > 0 then size / numChannels else 0;
    }

    /** convertSampleRate(newRate) without libsamplerate: a buffer with no
        rate adopts the new one, an equal rate changes nothing. A different
        rate needs resampling, which is reported and not performed. */
    method ConvertSampleRate(newRate: int) returns (resample: bool)
      modifies this`sampleRate
      ensures resample <==> old(sampleRate) != 0 && newRate != old(sampleRate)
      ensures sampleRate == if old(sampleRate) == 0 then newRate else old(sampleRate)
    {
      resample := false;
      if sampleRate == 0 {
        sampleRate := newRate;
      } else if newRate != sampleRate {
        resample := true;
      }
    }
  }

  /** The frame count resize gives `size` samples over `channels`. */
  function FramesFor(size: nat, channels: int): (r: nat)
    ensures channels > 0 ==> r * channels <= size < (r + 1) * channels
    ensures channels <= 0 ==> r == 0
  {
    if channels > 0 && size > 0 then size / channels else 0
  }

  /** After resize(size), hasData() holds exactly when there are channels,
      some samples, and the samples split into whole frames. */
  lemma ResizeHasData(size: nat, channels: int)
    ensures (FramesFor(size, channels) * channels == size && size > 0)
      <==> (channels > 0 && size > 0 && size % channels == 0)
  {
    if channels > 0 && size > 0 {
      var q := size / channels;
      assert size == q * channels + size % channels;
    }
  }

  /** isAvailable(n) says exactly that getAvailable(n) is not capped, and a
      cursor with frames left is neither past nor at the end. */
  lemma AvailabilityAgrees(b: AudioBuffer, n: int)
    ensures b.IsAvailable(n) <==> b.AvailableUpTo(n) == n
    ensures b.HasAvailable() <==> b.Available() > 0
    ensures b.IsEnd() ==> !b.HasAvailable() && b.Available() == 0
  {
  }

  lemma SignOfProduct(a: int, b: int)
    ensures a >= 0 && b <= 0 ==> a * b <= 0
  {
  }

  /** A cursor inside a buffer that holds data addresses a sample inside it,
      and the frames after it fill the rest of the buffer. */
  lemma CurrentInside(b: AudioBuffer)
    requires b.HasData() && 0 <= b.framePos <= b.numFrames
    ensures 0 <= b.CurrentIndex() <= b.Size()
    ensures b.CurrentIndex() + b.Available() * b.numChannels == b.Size()
    ensures b.CalcNumBytes(b.numFrames) == b.CalcAllBytes()
  {
    SignOfProduct(b.numFrames, b.numChannels);
    assert b.CurrentIndex() + b.Available() * b.numChannels == b.numFrames * b.numChannels;
    assert b.CurrentIndex() <= b.numFrames * b.numChannels;
  }
}
