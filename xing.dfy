/** Xing frame-count extraction (xingFrames, identical in MadDecoder and
    MpegFile): the ancillary data of the first frame is read as three
    big-endian 32-bit words (mad_bit_read(&ptr, 32)); a frame count is
    present when there are at least 96 bits, the first word is 'Xing' and
    the second word, the flags, has its lowest bit set. */
module Xing {
  const WordBits: nat := 32
  /** ('X' << 24) | ('i' << 16) | ('n' << 8) | 'g' */
  const XingMagic: nat := 0x5869_6E67

  function Pow2(n: nat): (r: nat)
    ensures r >= 1
  {
    if n == 0 then 1 else 2 * Pow2(n - 1)
  }

  /** The unsigned value of bits read most significant first. */
  function Value(bits: seq<bool>): nat {
    if bits == [] then 0
    else 2 * Value(bits[..|bits| - 1]) + (if bits[|bits| - 1] then 1 else 0)
  }

  /** One mad_bit_read(&ptr, 32) starting at bit `at`. */
  function Word(bits: seq<bool>, at: nat): nat
    requires at + WordBits <= |bits|
  {
    Value(bits[at..at + WordBits])
  }

  /** xingFrames: the third word when the header is present, else 0. */
  function XingFrames(anc: seq<bool>): nat {
    if |anc| >= 96 && Word(anc, 0) == XingMagic && Word(anc, 32) % 2 == 1
    then Word(anc, 64)
    else 0
  }

  /** `n` written as `width` bits, most significant first. */
  function Bits(n: nat, width: nat): (r: seq<bool>)
    ensures |r| == width
  {
    if width == 0 then [] else Bits(n / 2, width - 1) + [n % 2 == 1]
  }

  /** A reading of `width` bits is below 2^width. */
  lemma {:induction false} ValueBound(bits: seq<bool>)
    ensures Value(bits) < Pow2(|bits|)
  {
    if bits != [] {
      ValueBound(bits[..|bits| - 1]);
    }
  }

  /** Reading back bits written from a value that fits gives the value. */
  lemma {:induction false} ValueOfBits(n: nat, width: nat)
    requires n < Pow2(width)
    ensures Value(Bits(n, width)) == n
  {
    if width > 0 {
      var b := Bits(n, width);
      assert b[..width - 1] == Bits(n / 2, width - 1);
      ValueOfBits(n / 2, width - 1);
    }
  }

  /** The magic spells "Xing" in ASCII, most significant byte first. */
  lemma MagicSpellsXing()
    ensures XingMagic == (('X' as nat * 256 + 'i' as nat) * 256 + 'n' as nat) * 256 + 'g' as nat
  {
  }

  lemma {:induction false} Pow2Add(a: nat, b: nat)
    ensures Pow2(a + b) == Pow2(a) * Pow2(b)
  {
    if a > 0 {
      Pow2Add(a - 1, b);
    }
  }

  lemma Pow2Word()
    ensures Pow2(WordBits) == 0x1_0000_0000
  {
    assert Pow2(2) == 4;
    assert Pow2(4) == 16;
    Pow2Add(4, 4);
    Pow2Add(8, 8);
    Pow2Add(16, 16);
  }

  /** The three words of a 96-bit prefix are read from its three thirds. */
  lemma {:induction false} WordsOf(a: seq<bool>, b: seq<bool>, c: seq<bool>, rest: seq<bool>)
    requires |a| == |b| == |c| == WordBits
    ensures var anc := a + b + c + rest;
      |anc| >= 96 && Word(anc, 0) == Value(a) && Word(anc, 32) == Value(b) && Word(anc, 64) == Value(c)
  {
    var anc := a + b + c + rest;
    assert anc[0..32] == a;
    assert anc[32..64] == b;
    assert anc[64..96] == c;
  }

  /** A Xing header with odd flags followed by a frame count yields that
      count, whatever follows it; with even flags it yields 0. */
  lemma XingHeaderRead(flags: nat, count: nat, rest: seq<bool>)
    requires flags < Pow2(WordBits) && count < Pow2(WordBits)
    ensures var anc := Bits(XingMagic, WordBits) + Bits(flags, WordBits) + Bits(count, WordBits) + rest;
      XingFrames(anc) == if flags % 2 == 1 then count else 0
  {
    Pow2Word();
    ValueOfBits(XingMagic, WordBits);
    ValueOfBits(flags, WordBits);
    ValueOfBits(count, WordBits);
    WordsOf(Bits(XingMagic, WordBits), Bits(flags, WordBits), Bits(count, WordBits), rest);
  }

  /** Without the magic word no frame count is reported. */
  lemma {:induction false} NoMagicNoCount(anc: seq<bool>)
    requires |anc| < 96 || Word(anc, 0) != XingMagic
    ensures XingFrames(anc) == 0
  {
  }

  /** A reported count always fits in 32 bits. */
  lemma CountFits(anc: seq<bool>)
    ensures XingFrames(anc) < Pow2(WordBits)
  {
    if |anc| >= 96 {
      ValueBound(anc[64..96]);
    }
  }
}
