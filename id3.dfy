/** ID3 tag sizing at the start of a byte window (getId3TagSize, identical
    in MadDecoder and MpegFile). An ID3v1 tag is a fixed 128-byte block
    beginning "TAG". An ID3v2 tag has the 10-byte header of section 3.1 of
    the ID3v2.4.0 structure document ("ID3", two version bytes below 0xFF,
    a flags byte, and a four-byte synchsafe size of section 6.2), an
    optional 10-byte footer when flag 0x10 is set, and is followed by any
    run of zero padding bytes inside the window. */
module Id3 {
  import opened MadEngine

  const Id3v1Size: nat := 128
  const Id3v2HeaderSize: nat := 10
  const FooterSize: nat := 10
  /** ID3_TAG_FLAG_FOOTERPRESENT */
  const FooterPresent: bv8 := 0x10

  predicate Spells(data: seq<byte>, a: char, b: char, c: char)
    requires |data| >= 3
  {
    data[0] as int == a as int && data[1] as int == b as int && data[2] as int == c as int
  }

  predicate IsId3v1(data: seq<byte>) { |data| >= 3 && Spells(data, 'T', 'A', 'G') }

  predicate IsId3v2(data: seq<byte>) {
    |data| >= 10 && Spells(data, 'I', 'D', '3')
    && data[3] < 0xff && data[4] < 0xff
    && data[6] < 0x80 && data[7] < 0x80 && data[8] < 0x80 && data[9] < 0x80
  }

  predicate HasFooter(flags: byte) { (flags as bv8) & FooterPresent != 0 }

  /** The synchsafe integer of four bytes with clear top bits: 7 bits each,
      most significant first. */
  function Synchsafe(b0: byte, b1: byte, b2: byte, b3: byte): nat
    requires b0 < 0x80 && b1 < 0x80 && b2 < 0x80 && b3 < 0x80
  {
    ((b0 as nat * 128 + b1 as nat) * 128 + b2 as nat) * 128 + b3 as nat
  }

  /** The tag length the ID3v2 header declares: header, body, footer. */
  function DeclaredSize(data: seq<byte>): nat
    requires IsId3v2(data)
  {
    Id3v2HeaderSize + Synchsafe(data[6], data[7], data[8], data[9])
    + (if HasFooter(data[5]) then FooterSize else 0)
  }

  /** `size` extended over the zero bytes that follow it inside `data`. */
  function PaddedEnd(data: seq<byte>, size: nat): (r: nat)
    ensures r >= size && (r > size ==> r <= |data|)
    decreases |data| - size
  {
    if size < |data| && data[size] == 0 then PaddedEnd(data, size + 1) else size
  }

  /** The whole specification of getId3TagSize: the ID3v1 test comes first. */
  function TagSize(data: seq<byte>): nat {
    if IsId3v1(data) then Id3v1Size
    else if IsId3v2(data) then PaddedEnd(data, DeclaredSize(data))
    else 0
  }

  /** getId3TagSize: the two header tests, then the padding loop. */
  method GetId3TagSize(data: seq<byte>) returns (size: nat)
    ensures size == TagSize(data)
  {
    if |data| >= 3 && data[0] == 'T' as int as byte && data[1] == 'A' as int as byte
       && data[2] == 'G' as int as byte {
      return 128;
    }
    if |data| >= 10 && data[0] == 'I' as int as byte && data[1] == 'D' as int as byte
       && data[2] == '3' as int as byte && data[3] < 0xff && data[4] < 0xff
       && data[6] < 0x80 && data[7] < 0x80 && data[8] < 0x80 && data[9] < 0x80 {
      var flags := data[5];
      size := 10 + data[6] as nat * 0x20_0000 + data[7] as nat * 0x4000
              + data[8] as nat * 0x80 + data[9] as nat;
      if (flags as bv8) & 0x10 != 0 {
        size := size + 10;
      }
      assert size == DeclaredSize(data);
      while size < |data| && data[size] == 0
        invariant PaddedEnd(data, size) == TagSize(data)
        decreases |data| - size
      {
        size := size + 1;
      }
      return size;
    }
    return 0;
  }

  /** The padding run: everything between the start and the end is zero,
      and the end is the window end or a non-zero byte. */
  lemma {:induction false} PaddedEndIsRun(data: seq<byte>, size: nat)
    ensures forall k :: size <= k < PaddedEnd(data, size) ==> data[k] == 0
    ensures PaddedEnd(data, size) < |data| ==> data[PaddedEnd(data, size)] != 0
    decreases |data| - size
  {
    if size < |data| && data[size] == 0 {
      PaddedEndIsRun(data, size + 1);
    }
  }

  /** Three "TAG" bytes always mean a 128-byte tag, even when they could
      also start something else. */
  lemma {:induction false} Id3v1Wins(data: seq<byte>)
    requires |data| >= 3 && Spells(data, 'T', 'A', 'G')
    ensures TagSize(data) == 128
  {
  }

  /** A window that starts with neither tag has tag size 0, and a window
      shorter than three bytes never holds a tag. */
  lemma NoTag(data: seq<byte>)
    ensures !IsId3v1(data) && !IsId3v2(data) ==> TagSize(data) == 0
    ensures |data| < 3 ==> TagSize(data) == 0
  {
  }

  /** An ID3v2 match: at least the declared size, which is at least 10, or
      20 with the footer flag; the extension covers only zero bytes and
      stops at a non-zero byte or the end of the window. */
  lemma {:induction false} Id3v2Size(data: seq<byte>)
    requires IsId3v2(data) && !IsId3v1(data)
    ensures TagSize(data) >= DeclaredSize(data) >= 10
    ensures HasFooter(data[5]) ==> TagSize(data) >= 20
    ensures forall k :: DeclaredSize(data) <= k < TagSize(data) ==> data[k] == 0
    ensures TagSize(data) < |data| ==> data[TagSize(data)] != 0
  {
    PaddedEndIsRun(data, DeclaredSize(data));
  }

  /** The synchsafe size is the four 7-bit groups placed at bit 21, 14, 7
      and 0, as the source computes it. */
  lemma SynchsafeShifts(b0: byte, b1: byte, b2: byte, b3: byte)
    requires b0 < 0x80 && b1 < 0x80 && b2 < 0x80 && b3 < 0x80
    ensures Synchsafe(b0, b1, b2, b3)
      == b0 as nat * 0x20_0000 + b1 as nat * 0x4000 + b2 as nat * 0x80 + b3 as nat
    ensures Synchsafe(b0, b1, b2, b3) < 0x1000_0000
  {
  }

  /** Encodes a size below 2^28 as four synchsafe bytes. */
  function EncodeSynchsafe(n: nat): (r: seq<byte>)
    requires n < 0x1000_0000
    ensures |r| == 4 && r[0] < 0x80 && r[1] < 0x80 && r[2] < 0x80 && r[3] < 0x80
  {
    [(n / 0x20_0000) as byte, (n / 0x4000 % 0x80) as byte, (n / 0x80 % 0x80) as byte,
     (n % 0x80) as byte]
  }

  /** Decoding the encoded synchsafe bytes gives the size back. */
  lemma SynchsafeRoundTrip(n: nat)
    requires n < 0x1000_0000
    ensures var e := EncodeSynchsafe(n); Synchsafe(e[0], e[1], e[2], e[3]) == n
  {
  }
}
