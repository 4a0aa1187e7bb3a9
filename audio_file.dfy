/** The parts of the AudioFile base class the MPEG reader relies on: the
    open modes and the readable / writeable tests, and the instrument
    chunk (gain, key and velocity ranges, loops) with its has-data flag. */
module AudioFileModel {

  /** FileOpenMode: OpenRead = 0, OpenWrite = 1, OpenRdwr = 2. */
  datatype FileOpenMode = OpenRead | OpenWrite | OpenRdwr

  /** isReadable(): open, in read or read/write mode. */
  predicate IsReadable(isOpen: bool, mode: FileOpenMode) {
    isOpen && (mode == OpenRead || mode == OpenRdwr)
  }

  /** isWriteable(): open, in write or read/write mode. */
  predicate IsWriteable(isOpen: bool, mode: FileOpenMode) {
    isOpen && (mode == OpenWrite || mode == OpenRdwr)
  }

  /** Only an open file in read/write mode is both; a closed file is neither;
      every open file is one or the other. */
  lemma ReadWriteModes(isOpen: bool, mode: FileOpenMode)
    ensures IsReadable(isOpen, mode) && IsWriteable(isOpen, mode) <==> isOpen && mode == OpenRdwr
    ensures !isOpen ==> !IsReadable(isOpen, mode) && !IsWriteable(isOpen, mode)
    ensures isOpen ==> IsReadable(isOpen, mode) || IsWriteable(isOpen, mode)
  {
  }

  /** LoopMode: LoopNone = 800, LoopForward = 1, LoopBackward = 2,
      LoopAlternating = 3. */
  datatype LoopMode = LoopNone | LoopForward | LoopBackward | LoopAlternating

  function LoopModeValue(m: LoopMode): nat {
    match m
    case LoopNone => 800
    case LoopForward => 1
    case LoopBackward => 2
    case LoopAlternating => 3
  }

  /** LoopData: mode, start, end and repeat count. */
  datatype LoopData = LoopData(mode: LoopMode, start: nat, end: nat, numRepeats: nat)

  /** LoopData(): no loop, all zero. */
  const DefaultLoop := LoopData(LoopNone, 0, 0, 0)

  /** Every field of an instrument chunk, as one value. */
  datatype Chunk = Chunk(hasData: bool, gain: int, baseNote: int, keyLow: int, keyHigh: int,
                         velocityLow: int, velocityHigh: int, detune: int, loops: seq<LoopData>)

  class InstrumentChunk {
    var hasData: bool
    var gain: int
    var baseNote: int
    var keyLow: int
    var keyHigh: int
    var velocityLow: int
    var velocityHigh: int
    var detune: int
    var loops: seq<LoopData>

    function Fields(): Chunk
      reads this
    {
      Chunk(hasData, gain, baseNote, keyLow, keyHigh, velocityLow, velocityHigh, detune, loops)
    }

    /** InstrumentChunk(): no data, gain 1, base note 60, keys and
        velocities 0..127, no detune, no loops. */
    constructor ()
      ensures Fields() == Chunk(false, 1, 60, 0, 127, 0, 127, 0, [])
    {
      hasData := false;
      gain := 1;
      baseNote := 60;
      keyLow := 0;
      keyHigh := 127;
      velocityLow := 0;
      velocityHigh := 127;
      detune := 0;
      loops := [];
    }

    method SetHasData(value: bool)
      modifies this
      ensures Fields() == Apply(old(Fields()), Edit.SetHasData(value))
    {
      hasData := value;
    }

    method SetGain(value: int)
      modifies this
      ensures Fields() == Apply(old(Fields()), Edit.Gain(value))
    {
      hasData := true;
      gain := value;
    }

    method SetBaseNote(value: int)
      modifies this
      ensures Fields() == Apply(old(Fields()), Edit.BaseNote(value))
    {
      hasData := true;
      baseNote := value;
    }

    method SetKeyLow(value: int)
      modifies this
      ensures Fields() == Apply(old(Fields()), Edit.KeyLow(value))
    {
      hasData := true;
      keyLow := value;
    }

    method SetKeyHigh(value: int)
      modifies this
      ensures Fields() == Apply(old(Fields()), Edit.KeyHigh(value))
    {
      hasData := true;
      keyHigh := value;
    }

    method SetVelocityLow(value: int)
      modifies this
      ensures Fields() == Apply(old(Fields()), Edit.VelocityLow(value))
    {
      hasData := true;
      velocityLow := value;
    }

    method SetVelocityHigh(value: int)
      modifies this
      ensures Fields() == Apply(old(Fields()), Edit.VelocityHigh(value))
    {
      hasData := true;
      velocityHigh := value;
    }

    method SetDetune(value: int)
      modifies this
      ensures Fields() == Apply(old(Fields()), Edit.Detune(value))
    {
      hasData := true;
      detune := value;
    }

    /** addLoop: appends and marks the chunk as holding data. */
    method AddLoop(data: LoopData)
      modifies this
      ensures Fields() == Apply(old(Fields()), Edit.AddLoop(data))
      ensures NumLoops() == old(NumLoops()) + 1
    {
      hasData := true;
      loops := loops + [data];
    }

    /** clearLoops: empties the loop list and leaves the flag alone. */
    method ClearLoops()
      modifies this
      ensures Fields() == Apply(old(Fields()), Edit.ClearLoops)
    {
      loops := [];
    }

    /** getNumLoops() */
    function NumLoops(): nat
      reads this
    {
      |loops|
    }
  }

  /** What a sequence of setter calls leaves in a chunk: the has-data flag
      is set by every setter and by addLoop, and cleared only by setHasData. */
  datatype Edit = Gain(v: int) | BaseNote(v: int) | KeyLow(v: int) | KeyHigh(v: int)
                | VelocityLow(v: int) | VelocityHigh(v: int) | Detune(v: int)
                | AddLoop(loop: LoopData) | ClearLoops | SetHasData(flag: bool)

  function Apply(c: Chunk, e: Edit): Chunk {
    match e
    case Gain(v) => c.(gain := v, hasData := true)
    case BaseNote(v) => c.(baseNote := v, hasData := true)
    case KeyLow(v) => c.(keyLow := v, hasData := true)
    case KeyHigh(v) => c.(keyHigh := v, hasData := true)
    case VelocityLow(v) => c.(velocityLow := v, hasData := true)
    case VelocityHigh(v) => c.(velocityHigh := v, hasData := true)
    case Detune(v) => c.(detune := v, hasData := true)
    case AddLoop(l) => c.(loops := c.loops + [l], hasData := true)
    case ClearLoops => c.(loops := [])
    case SetHasData(f) => c.(hasData := f)
  }

  function ApplyAll(c: Chunk, es: seq<Edit>): Chunk
    decreases |es|
  {
    if es == [] then c else ApplyAll(Apply(c, es[0]), es[1..])
  }

  /** After any edits none of which is setHasData, the chunk holds data
      exactly when it did before or some edit other than clearLoops ran. */
  lemma HasDataSticks(c: Chunk, es: seq<Edit>)
    requires forall i :: 0 <= i < |es| ==> !es[i].SetHasData?
    ensures ApplyAll(c, es).hasData
      <==> c.hasData || exists i :: 0 <= i < |es| && !es[i].ClearLoops?
    decreases |es|
  {
    if es != [] {
      HasDataSticks(Apply(c, es[0]), es[1..]);
      if !es[0].ClearLoops? {
        assert Apply(c, es[0]).hasData;
      }
      if exists i :: 0 <= i < |es| && !es[i].ClearLoops? {
        var i :| 0 <= i < |es| && !es[i].ClearLoops?;
        if i > 0 {
          assert !es[1..][i - 1].ClearLoops?;
        }
      }
      if exists i :: 0 <= i < |es[1..]| && !es[1..][i].ClearLoops? {
        var i :| 0 <= i < |es[1..]| && !es[1..][i].ClearLoops?;
        assert !es[i + 1].ClearLoops?;
      }
    }
  }

  /** The loop count is the number of addLoop edits since the last clearLoops. */
  lemma LoopCount(c: Chunk, es: seq<Edit>)
    requires forall i :: 0 <= i < |es| ==> !es[i].ClearLoops?
    ensures |ApplyAll(c, es).loops| == |c.loops| + CountAdds(es)
    decreases |es|
  {
    if es != [] {
      LoopCount(Apply(c, es[0]), es[1..]);
    }
  }

  function CountAdds(es: seq<Edit>): nat
    decreases |es|
  {
    if es == [] then 0 else (if es[0].AddLoop? then 1 else 0) + CountAdds(es[1..])
  }
}
