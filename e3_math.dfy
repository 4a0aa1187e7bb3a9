/** The integer parts of e3's math helpers: clip, the BoundedRange and
    BoundedValue templates over int, the in-place byte swaps and the
    two-byte MIDI value combination. */
module E3Math {
  import opened Wrappers

  /** clip(n, lower, upper): std::max(lower, std::min(n, upper)). */
  function Clip(n: int, lower: int, upper: int): (r: int)
    ensures lower <= upper ==> lower <= r <= upper
    ensures lower <= n <= upper ==> r == n
    ensures upper < lower ==> r == lower
  {
    Max(lower, Min(n, upper))
  }

  /** Clipping an inside value changes nothing, clipping twice is clipping
      once, the order of values is kept, and a value outside goes to the
      nearer bound. */
  lemma ClipProperties(n: int, m: int, lower: int, upper: int)
    requires lower <= upper
    ensures Clip(Clip(n, lower, upper), lower, upper) == Clip(n, lower, upper)
    ensures n <= m ==> Clip(n, lower, upper) <= Clip(m, lower, upper)
    ensures n < lower ==> Clip(n, lower, upper) == lower
    ensures upper < n ==> Clip(n, lower, upper) == upper
  {
  }

  /** BoundedRange<int>: a lower and an upper bound, kept in order. */
  class BoundedRange {
    var min: int
    var max: int

    ghost predicate Valid()
      reads this
    {
      min <= max
    }

    /** BoundedRange(min, max), the defaults being 0 and 1. */
    constructor (lower: int, upper: int)
      ensures Valid() && min == Min(lower, upper) && max == Max(lower, upper)
    {
      min, max := 0, 0;
      new;
      Validate(lower, upper);
    }

    /** validate(min, max): reversed bounds are swapped. */
    method Validate(lower: int, upper: int)
      modifies this
      ensures Valid() && min == Min(lower, upper) && max == Max(lower, upper)
      ensures lower <= upper ==> min == lower && max == upper
    {
      var lo, hi := lower, upper;
      if lo > hi {
        lo, hi := hi, lo;
      }
      min := lo;
      max := hi;
    }

    /** bound(value) */
    function Bound(value: int): (r: int)
      reads this
      requires Valid()
      ensures min <= r <= max && (min <= value <= max ==> r == value)
    {
      Clip(value, min, max)
    }

    /** setMin(min) and setMax(max), both through validate. */
    method SetMin(lower: int)
      modifies this
      ensures Valid() && min == Min(lower, old(max)) && max == Max(lower, old(max))
    {
      Validate(lower, max);
    }

    method SetMax(upper: int)
      modifies this
      ensures Valid() && min == Min(old(min), upper) && max == Max(old(min), upper)
    {
      Validate(min, upper);
    }

    /** getRange() */
    function Range(): (r: int)
      reads this
      requires Valid()
      ensures r >= 0 && min + r == max
    {
      max - min
    }
  }

  /** BoundedValue<int>: a value kept inside a BoundedRange, held here as a
      component for the base class. */
  class BoundedValue {
    const range: BoundedRange
    var value: int

    ghost predicate Valid()
      reads this, range
    {
      range.Valid()
    }

    /** The value lies inside the range. */
    ghost predicate Inside()
      reads this, range
    {
      range.min <= value <= range.max
    }

    /** BoundedValue(value, min, max), the defaults being 0, 0 and 1. */
    constructor (v: int, lower: int, upper: int)
      ensures Valid() && Inside() && fresh(range)
      ensures range.min == Min(lower, upper) && range.max == Max(lower, upper)
      ensures value == Clip(v, range.min, range.max)
    {
      range := new BoundedRange(lower, upper);
      value := Clip(v, Min(lower, upper), Max(lower, upper));
    }

    /** setValue(value) and operator=(value): clipped into the range. */
    method SetValue(v: int)
      requires Valid()
      modifies this
      ensures Valid() && Inside() && value == Clip(v, range.min, range.max)
    {
      value := Clip(v, range.min, range.max);
    }

    method Assign(v: int)
      requires Valid()
      modifies this
      ensures Valid() && Inside() && value == Clip(v, range.min, range.max)
    {
      SetValue(v);
    }

    /** getValue() and operator T() */
    function Value(): int
      reads this
    {
      value
    }

    /** The inherited setMin and setMax run the base class's validate,
        which is not virtual: the bounds move and the value stays where it
        was, possibly outside them. */
    method SetMin(lower: int)
      requires Valid()
      modifies range
      ensures Valid() && value == old(value)
      ensures range.min == Min(lower, old(range.max)) && range.max == Max(lower, old(range.max))
      ensures old(value) < lower <= old(range.max) ==> value < range.min
    {
      range.SetMin(lower);
      if old(value) < lower <= old(range.max) {
        SetMinLeavesValueOutside(value, lower, old(range.max));
      }
    }

    method SetMax(upper: int)
      requires Valid()
      modifies range
      ensures Valid() && value == old(value)
      ensures range.min == Min(old(range.min), upper) && range.max == Max(old(range.min), upper)
    {
      range.SetMax(upper);
    }
  }

  /** setMin on a BoundedValue can leave its value outside: a lower
      bound above the value (and not above the upper bound) becomes the
      new minimum, which the value lies below, where re-clipping would
      have given the new minimum. */
  lemma SetMinLeavesValueOutside(value: int, lower: int, upper: int)
    requires value < lower <= upper
    ensures Min(lower, upper) == lower && Max(lower, upper) == upper
    ensures value < Min(lower, upper) && Clip(value, Min(lower, upper), Max(lower, upper)) == lower
  {
  }

  /** The bytes of `s` in reverse order. */
  function Reverse<T>(s: seq<T>): (r: seq<T>)
    ensures |r| == |s| && forall i :: 0 <= i < |s| ==> r[i] == s[|s| - 1 - i]
  {
    if s == [] then [] else Reverse(s[1..]) + [s[0]]
  }

  lemma {:induction false} ReverseInvolution<T>(s: seq<T>)
    ensures Reverse(Reverse(s)) == s
  {
    assert forall i :: 0 <= i < |s| ==> Reverse(Reverse(s))[i] == s[i];
  }

  /** `s` with the `width` bytes at `at` reversed, as SwapN leaves it. */
  function Swapped<T>(s: seq<T>, at: nat, width: nat): (r: seq<T>)
    requires at + width <= |s|
    ensures |r| == |s|
    ensures forall i :: 0 <= i < |s| && !(at <= i < at + width) ==> r[i] == s[i]
    ensures forall i :: at <= i < at + width ==> r[i] == s[at + (at + width - 1 - i)]
  {
    s[..at] + Reverse(s[at..at + width]) + s[at + width..]
  }

  /** Swapping twice restores the bytes. */
  lemma SwapInvolution<T>(s: seq<T>, at: nat, width: nat)
    requires at + width <= |s|
    ensures Swapped(Swapped(s, at, width), at, width) == s
  {
    var once := Swapped(s, at, width);
    var twice := Swapped(once, at, width);
    forall i | 0 <= i < |s|
      ensures twice[i] == s[i]
    {
      if at <= i < at + width {
        var j := at + (at + width - 1 - i);
        assert twice[i] == once[j];
        assert once[j] == s[at + (at + width - 1 - j)];
      }
    }
  }

  /** Swap16(ptr), Swap32(ptr), Swap64(ptr) at index `at` of `a`. */
  method Swap16(a: array<bv8>, at: nat)
    requires at + 2 <= a.Length
    modifies a
    ensures a[..] == Swapped(old(a[..]), at, 2)
  {
    var val := a[at];
    a[at] := a[at + 1];
    a[at + 1] := val;
  }

  method Swap32(a: array<bv8>, at: nat)
    requires at + 4 <= a.Length
    modifies a
    ensures a[..] == Swapped(old(a[..]), at, 4)
  {
    var val := a[at];
    a[at] := a[at + 3];
    a[at + 3] := val;
    var p := at + 1;
    val := a[p];
    a[p] := a[p + 1];
    a[p + 1] := val;
  }

  method Swap64(a: array<bv8>, at: nat)
    requires at + 8 <= a.Length
    modifies a
    ensures a[..] == Swapped(old(a[..]), at, 8)
  {
    ghost var s := a[..];
    var val := a[at];
    a[at] := a[at + 7];
    a[at + 7] := val;
    var p := at + 1;
    val := a[p];
    a[p] := a[p + 5];
    a[p + 5] := val;
    p := p + 1;
    val := a[p];
    a[p] := a[p + 3];
    a[p + 3] := val;
    p := p + 1;
    val := a[p];
    a[p] := a[p + 1];
    a[p + 1] := val;
    Reversed8(s, at, a[..]);
  }

  /** A sequence that agrees with `s` outside the eight bytes at `at` and
      holds those bytes in reverse order is `Swapped(s, at, 8)`. */
  lemma Reversed8<T>(s: seq<T>, at: nat, r: seq<T>)
    requires at + 8 <= |s| && |r| == |s|
    requires r[..at] == s[..at] && r[at + 8..] == s[at + 8..]
    requires r[at] == s[at + 7] && r[at + 1] == s[at + 6] && r[at + 2] == s[at + 5]
    requires r[at + 3] == s[at + 4] && r[at + 4] == s[at + 3] && r[at + 5] == s[at + 2]
    requires r[at + 6] == s[at + 1] && r[at + 7] == s[at]
    ensures r == Swapped(s, at, 8)
  {
    assert r == r[..at] + r[at..at + 8] + r[at + 8..];
    assert r[at..at + 8] == Reverse(s[at..at + 8]);
  }

  /** Combine14Bits(value1, value2): value2 shifted up by 7 and or-ed with
      value1 in 16 bits; neither value is masked to 7 bits. */
  function Combine14Bits(value1: bv16, value2: bv16): (r: bv16)
    ensures value1 < 0x80 && value2 < 0x80 ==> r < 0x4000 && r == value2 * 0x80 + value1
  {
    (value2 << 7) | value1
  }

  /** For 7-bit inputs the low 7 bits return value1 and the bits above
      them value2; an eighth bit in value1 leaks into the high part. */
  lemma Combine14BitsSplits(value1: bv16, value2: bv16)
    ensures value1 < 0x80 && value2 < 0x80 ==>
      Combine14Bits(value1, value2) & 0x7F == value1 && Combine14Bits(value1, value2) >> 7 == value2
    ensures Combine14Bits(0x80, 0) >> 7 == 1
  {
  }
}
