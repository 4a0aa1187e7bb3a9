/** What the two growable buffers of the code base (Buffer<T> and
    e3::Buffer<T>) do to their contents, stated on sequences: a resize
    keeps a prefix and zero-fills (calloc) the rest, a removal cuts out a
    range, an insertion splices a block in. */
module BufferSpec {

  /** `n` copies of `v`. */
  function Filled<T>(v: T, n: nat): (r: seq<T>)
    ensures |r| == n && forall i :: 0 <= i < n ==> r[i] == v
  {
    seq(n, _ => v)
  }

  /** The contents after resize(n): the first min(|s|, n) elements kept,
      then `zero` (the all-zero element calloc delivers) up to n. */
  function Resized<T>(s: seq<T>, n: nat, zero: T): seq<T> {
    if n <= |s| then s[..n] else s + Filled(zero, n - |s|)
  }

  /** The old contents with [idx, idx + len) cut out. */
  function RemovedRange<T>(s: seq<T>, idx: nat, len: nat): seq<T>
    requires idx + len <= |s|
  {
    s[..idx] + s[idx + len..]
  }

  /** The old contents with `block` spliced in before position `pos`. */
  function Inserted<T>(s: seq<T>, pos: nat, block: seq<T>): seq<T>
    requires pos <= |s|
  {
    s[..pos] + block + s[pos..]
  }

  /** Resize keeps exactly the common prefix and zero-fills the new slots. */
  lemma ResizedContents<T>(s: seq<T>, n: nat, zero: T)
    ensures |Resized(s, n, zero)| == n
    ensures forall i :: 0 <= i < n && i < |s| ==> Resized(s, n, zero)[i] == s[i]
    ensures forall i :: |s| <= i < n ==> Resized(s, n, zero)[i] == zero
  {
  }

  /** Growing and then shrinking back to the old size restores the contents. */
  lemma GrowThenShrink<T>(s: seq<T>, n: nat, zero: T)
    requires |s| <= n
    ensures Resized(Resized(s, n, zero), |s|, zero) == s
  {
    assert Resized(s, n, zero)[..|s|] == s;
  }

  /** Shrinking loses the tail: growing back yields zeros there. */
  lemma ShrinkThenGrow<T>(s: seq<T>, n: nat, zero: T)
    requires n <= |s|
    ensures Resized(Resized(s, n, zero), |s|, zero) == s[..n] + Filled(zero, |s| - n)
  {
  }

  /** A removal keeps everything before the range and everything after it,
      in order. */
  lemma RemovedRangeContents<T>(s: seq<T>, idx: nat, len: nat)
    requires idx + len <= |s|
    ensures |RemovedRange(s, idx, len)| == |s| - len
    ensures forall i :: 0 <= i < idx ==> RemovedRange(s, idx, len)[i] == s[i]
    ensures forall i :: idx <= i < |s| - len ==> RemovedRange(s, idx, len)[i] == s[i + len]
  {
  }

  /** Cutting out the block an insertion spliced in restores the contents. */
  lemma InsertThenRemove<T>(s: seq<T>, pos: nat, block: seq<T>)
    requires pos <= |s|
    ensures RemovedRange(Inserted(s, pos, block), pos, |block|) == s
  {
    var t := Inserted(s, pos, block);
    assert t[..pos] == s[..pos];
    assert t[pos + |block|..] == s[pos..];
  }

  /** An insertion grows the contents by the block and places it at `pos`. */
  lemma InsertedContents<T>(s: seq<T>, pos: nat, block: seq<T>)
    requires pos <= |s|
    ensures |Inserted(s, pos, block)| == |s| + |block|
    ensures Inserted(s, pos, block)[pos..pos + |block|] == block
    ensures forall i :: 0 <= i < pos ==> Inserted(s, pos, block)[i] == s[i]
    ensures forall i :: pos <= i < |s| ==> Inserted(s, pos, block)[i + |block|] == s[i]
  {
    var t := Inserted(s, pos, block);
    assert t == (s[..pos] + block) + s[pos..];
    assert t[pos..pos + |block|] == block;
  }
}
