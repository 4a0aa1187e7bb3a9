/** e3::Buffer<T>: the libcommon twin of Buffer<T>, with a truncating
    remove(pos, length) and an insert(other, pos, length) that copies a
    block in. A null data pointer is the empty array; calloc zero-fills
    and is taken to succeed for every size > 0, so the `size_ = 0`
    branches after a failed allocation are not reached. */
module E3Buffers {
  import opened Wrappers
  import opened BufferSpec

  class Buffer<T> {
    /** The element calloc's all-zero bytes stand for. */
    const zero: T
    /** data_, of length size_ */
    var data: array<T>

    /** Buffer(size) */
    constructor (zero: T, size: nat)
      ensures this.zero == zero && data[..] == Filled(zero, size) && fresh(data)
    {
      this.zero := zero;
      data := new T[size](_ => zero);
    }

    /** size() */
    function Size(): nat
      reads this
    {
      data.Length
    }

    /** empty() */
    predicate IsEmpty()
      reads this
    {
      data.Length == 0
    }

    /** copy / operator=: identical contents in new storage; a buffer
        copied onto itself ends up empty, as clear() runs first. */
    method Copy(source: Buffer<T>)
      modifies this
      ensures fresh(data)
      ensures data[..] == if source == this then [] else old(source.data[..])
      ensures source != this ==> source.data == old(source.data)
    {
      Clear();
      var from := source.data;
      data := new T[from.Length](i reads from => if 0 <= i < from.Length then from[i] else zero);
      assert data[..] == from[..];
    }

    /** resize(size): keeps the first min(old, new) elements, zero-fills
        the new slots. */
    method Resize(size: nat)
      modifies this
      ensures fresh(data) && data[..] == Resized(old(data[..]), size, zero)
    {
      var from := data;
      var keep := if size < from.Length then size else from.Length;
      data := new T[size](i reads from => if 0 <= i < keep && i < from.Length then from[i] else zero);
      assert data[..] == Resized(from[..], size, zero);
    }

    /** resize(size, value) */
    method ResizeWith(size: nat, value: T)
      modifies this
      ensures fresh(data) && data[..] == Filled(value, size)
    {
      Resize(size);
      Set(value);
    }

    /** set(value): the fill loop. */
    method Set(value: T)
      modifies data
      ensures data[..] == Filled(value, data.Length)
    {
      var i := 0;
      while i < data.Length
        invariant i <= data.Length
        invariant forall k :: 0 <= k < i ==> data[k] == value
      {
        data[i] := value;
        i := i + 1;
      }
    }

    /** remove(pos, length): `length` is truncated to size - pos. With
        pos >= size or nothing left to remove it returns null and changes
        nothing; otherwise [pos, pos + length) is cut out. The result is
        whether the returned data pointer is non-null. */
    method Remove(pos: nat, length: nat) returns (nonNull: bool)
      modifies this
      ensures !Removes(old(data.Length), pos, length) ==> !nonNull && data == old(data)
      ensures Removes(old(data.Length), pos, length) ==>
        data[..] == RemovedRange(old(data[..]), pos, Min(old(data.Length) - pos, length))
        && nonNull == (data.Length > 0)
    {
      if !Removes(data.Length, pos, length) {
        return false;
      }
      var len := Min(data.Length - pos, length);
      var from := data;
      data := new T[from.Length - len](i reads from =>
        if 0 <= i < pos && i < from.Length then from[i]
        else if pos <= i && i + len < from.Length then from[i + len]
        else zero);
      assert data[..] == RemovedRange(from[..], pos, len);
      nonNull := data.Length > 0;
    }

    /** insert(other, pos, length): with pos >= size nothing is inserted and
        0 returned (so a block can be neither appended nor put into an
        empty buffer); otherwise other[0, length) goes in before `pos` and
        `length` is returned. */
    method Insert(other: seq<T>, pos: nat, length: nat) returns (inserted: nat)
      requires length <= |other|
      modifies this
      ensures old(data.Length) <= pos ==> inserted == 0 && data == old(data)
      ensures pos < old(data.Length) ==>
        inserted == length && data[..] == Inserted(old(data[..]), pos, other[..length])
    {
      if pos >= data.Length {
        return 0;
      }
      var from := data;
      data := new T[from.Length + length](i reads from =>
        if 0 <= i < pos && i < from.Length then from[i]
        else if pos <= i < pos + length && i - pos < |other| then other[i - pos]
        else if pos + length <= i < from.Length + length then from[i - length]
        else zero);
      assert data[..] == Inserted(from[..], pos, other[..length]);
      inserted := length;
    }

    /** clear(): size 0 and data null. */
    method Clear()
      modifies this
      ensures Size() == 0 && IsEmpty()
    {
      data := new T[0](_ => zero);
    }
  }

  /** Whether remove(pos, length) acts on a buffer of `size` elements. */
  predicate Removes(size: nat, pos: nat, length: nat) {
    pos < size && Min(size - pos, length) > 0
  }

  /** remove acts exactly when `pos` is inside and `length` is positive,
      and then shrinks the buffer by the truncated length. */
  lemma RemoveActs<T>(s: seq<T>, pos: nat, length: nat)
    ensures Removes(|s|, pos, length) <==> pos < |s| && length > 0
    ensures Removes(|s|, pos, length) ==>
      |RemovedRange(s, pos, Min(|s| - pos, length))| == |s| - Min(|s| - pos, length)
  {
  }

  /** An insertion followed by a removal of the same range restores the
      contents, whenever the insertion took place. */
  lemma InsertRemoveRoundTrip<T>(s: seq<T>, pos: nat, block: seq<T>)
    requires pos < |s| && |block| > 0
    ensures Removes(|Inserted(s, pos, block)|, pos, |block|)
    ensures RemovedRange(Inserted(s, pos, block), pos, Min(|Inserted(s, pos, block)| - pos, |block|)) == s
  {
    InsertedContents(s, pos, block);
    InsertThenRemove(s, pos, block);
  }
}
