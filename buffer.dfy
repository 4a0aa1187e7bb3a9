/** Buffer<T>: a heap block of `size_` elements that can be resized at any
    time. A null data pointer is the empty array here; allocation
    (calloc) zero-fills, and is taken to succeed for every size > 0, as
    the source's ASSERT after calloc demands. */
module Buffers {
  import opened Wrappers
  import opened BufferSpec

  class Buffer<T> {
    /** The element calloc's all-zero bytes stand for. */
    const zero: T
    /** data_, of length size_ */
    var data: array<T>

    /** Buffer(size): `size` zero-filled elements. */
    constructor (zero: T, size: nat)
      ensures this.zero == zero && data[..] == Filled(zero, size) && fresh(data)
    {
      this.zero := zero;
      data := new T[size](_ => zero);
    }

    /** getSize() */
    function Size(): nat
      reads this
    {
      data.Length
    }

    /** empty() */
    predicate IsEmpty()
      reads this
    {
      data.Length == 0
    }

    /** copy / operator=: separate storage holding the source's elements.
        clear() comes first, so copying a buffer onto itself empties it. */
    method Copy(source: Buffer<T>)
      modifies this
      ensures fresh(data)
      ensures data[..] == if source == this then [] else old(source.data[..])
      ensures source != this ==> source.data == old(source.data)
    {
      Clear();
      var n := source.data.Length;
      var from := source.data;
      data := new T[n](i reads from => if 0 <= i < from.Length then from[i] else zero);
      assert data[..] == from[..];
    }

    /** resize(size): the first min(old, new) elements kept, the rest
        zero-filled, in new storage. */
    method Resize(size: nat)
      modifies this
      ensures fresh(data) && data[..] == Resized(old(data[..]), size, zero)
    {
      var from := data;
      var keep := if size < from.Length then size else from.Length;
      data := new T[size](i reads from => if 0 <= i < keep && i < from.Length then from[i] else zero);
      assert data[..] == Resized(from[..], size, zero);
    }

    /** resize(size, value): the new size, every element `value`. */
    method ResizeWith(size: nat, value: T)
      modifies this
      ensures fresh(data) && data[..] == Filled(value, size)
    {
      Resize(size);
      Set(value);
    }

    /** set(value): every element becomes `value`; the size is unchanged. */
    method Set(value: T)
      modifies data
      ensures data[..] == Filled(value, data.Length)
    {
      for i := 0 to data.Length
        invariant forall k :: 0 <= k < i ==> data[k] == value
      {
        data[i] := value;
      }
    }

    /** removeAt(idx): the element at `idx` deleted, the rest kept in order.
        Nothing happens on an empty buffer (null data). The source frees
        an undeclared `pOldData` at this point; the model frees the old
        block it evidently means. */
    method RemoveAt(idx: nat)
      requires data.Length > 0 ==> idx < data.Length
      modifies this
      ensures old(data.Length) == 0 ==> data == old(data)
      ensures old(data.Length) > 0 ==> data[..] == RemovedRange(old(data[..]), idx, 1)
    {
      if data.Length > 0 {
        data := Cut(data, idx, 1);
      }
    }

    /** removeRange(idx, length): `length` is first clamped to
        size - idx - 1, so the last element always survives. */
    method RemoveRange(idx: nat, length: nat)
      requires data.Length > 0 ==> idx < data.Length
      modifies this
      ensures old(data.Length) == 0 ==> data == old(data)
      ensures old(data.Length) > 0 ==>
        data[..] == RemovedRange(old(data[..]), idx, RangeLength(old(data.Length), idx, length))
    {
      if data.Length > 0 {
        data := Cut(data, idx, RangeLength(data.Length, idx, length));
      }
    }

    /** clear(): frees the block; afterwards getSize() == 0 and empty(). */
    method Clear()
      modifies this
      ensures Size() == 0 && IsEmpty()
    {
      data := new T[0](_ => zero);
    }

    /** A new block holding `from` without [idx, idx + len). */
    method Cut(from: array<T>, idx: nat, len: nat) returns (r: array<T>)
      requires idx + len <= from.Length
      ensures fresh(r) && r[..] == RemovedRange(from[..], idx, len)
    {
      r := new T[from.Length - len](i reads from =>
        if 0 <= i < idx && i < from.Length then from[i]
        else if idx <= i && i + len < from.Length then from[i + len]
        else zero);
      assert r[..] == RemovedRange(from[..], idx, len);
    }
  }

  /** How many elements removeRange(idx, length) takes out of `size`. */
  function RangeLength(size: nat, idx: nat, length: nat): (r: nat)
    requires idx < size
    ensures r <= size - idx - 1
    ensures length <= size - idx - 1 ==> r == length
  {
    Min(size - idx - 1, length)
  }

  /** removeRange never takes the last element, whatever `length` says. */
  lemma LastSurvives<T>(s: seq<T>, idx: nat, length: nat)
    requires idx < |s|
    ensures var r := RemovedRange(s, idx, RangeLength(|s|, idx, length));
      |r| >= idx + 1 && r[|r| - 1] == s[|s| - 1]
  {
  }

  /** Away from the end, removeRange(idx, 1) is removeAt(idx); at the last
      index it removes nothing. */
  lemma RangeOfOne<T>(s: seq<T>, idx: nat)
    requires idx < |s|
    ensures idx < |s| - 1 ==> RangeLength(|s|, idx, 1) == 1
    ensures idx == |s| - 1 ==> RemovedRange(s, idx, RangeLength(|s|, idx, 1)) == s
  {
  }
}
