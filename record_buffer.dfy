/** RecordBuffer<T>: the log's circular buffer over a std::vector, with a
    read index, a write index, a count of used slots and one of four
    policies for a push into a full buffer. The state is a value (`State`)
    and each operation a function on it; the class's methods are proved to
    perform those functions, and the ring behaviour (first in, first out)
    is proved about the functions. */
module RecordBuffers {
  import opened Wrappers
  import opened BufferSpec

  /** OverflowPolicy */
  datatype Policy = UseOldest | UseNewest | ResizeOnOverflow | ThrowOnOverflow

  /** OverflowException and UnderflowException */
  datatype Failure = Overflow | Underflow

  /** vector_ (whose length is size_), read_, write_, used_ */
  datatype State<T> = State(vector: seq<T>, read: nat, write: nat, used: nat)

  /** full(): slots in use and the indices met, or the write index past the
      end. */
  predicate IsFull<T>(st: State<T>) {
    (st.read == st.write || st.write >= |st.vector|) && st.used > 0
  }

  predicate IsEmpty<T>(st: State<T>) { st.used == 0 }

  /** available() */
  function Available<T>(st: State<T>): int { |st.vector| - st.used }

  /** size_t(size_ * 1.5) */
  function Grown(size: nat): nat { size * 3 / 2 }

  /** What push needs to stay inside the vector: the write index on the
      ordinary path and under USE_NEWEST, index used_ of the grown vector
      under RESIZE. */
  predicate CanPush<T>(st: State<T>, policy: Policy) {
    if !IsFull(st) then st.write < |st.vector|
    else
      (policy == UseNewest ==> st.write < |st.vector|)
      && (policy == ResizeOnOverflow ==> st.used < Grown(|st.vector|))
  }

  /** Whether push throws OverflowException. */
  predicate Throws<T>(st: State<T>, policy: Policy) {
    IsFull(st) && policy == ThrowOnOverflow
  }

  /** The state after push(value); `blank` is what std::vector::resize puts
      into new slots. Under USE_OLDEST and THROW a full buffer stays as it
      is. */
  function Pushed<T>(st: State<T>, policy: Policy, value: T, blank: T): (r: State<T>)
    requires CanPush(st, policy)
  {
    if !IsFull(st) then
      State(st.vector[st.write := value], st.read, (st.write + 1) % |st.vector|,
            Min(st.used + 1, |st.vector|))
    else match policy
      case UseOldest => st
      case UseNewest => st.(vector := st.vector[st.write := value], write := (st.write + 1) % |st.vector|)
      case ResizeOnOverflow =>
        var grown := Resized(st.vector, Grown(|st.vector|), blank);
        State(grown[st.used := value], st.read, st.used + 1, st.used + 1)
      case ThrowOnOverflow => st
  }

  /** What pop needs: the read index inside the vector when it reads. */
  predicate CanPop<T>(st: State<T>) {
    st.used > 0 ==> st.read < |st.vector|
  }

  /** pop(): the value at the read index and the state after it. */
  function Popped<T>(st: State<T>): (r: (T, State<T>))
    requires st.used > 0 && st.read < |st.vector|
  {
    (st.vector[st.read], st.(read := (st.read + 1) % |st.vector|, used := st.used - 1))
  }

  /** An index at most one lap past the end of a ring of n slots, brought
      back into it. */
  function Wrap(i: nat, n: nat): nat
    requires n > 0
  {
    if i < n then i else i - n
  }

  /** The ring shape the ordinary push and pop keep: the write index is
      `used` slots past the read index, around the ring. */
  ghost predicate Ring<T>(st: State<T>) {
    |st.vector| > 0 && st.read < |st.vector| && st.used <= |st.vector|
    && st.write == Wrap(st.read + st.used, |st.vector|)
  }

  /** The records in the buffer, oldest first. */
  ghost function Contents<T>(st: State<T>): (r: seq<T>)
    requires Ring(st)
    ensures |r| == st.used
  {
    seq(st.used, k requires 0 <= k < st.used => st.vector[Wrap(st.read + k, |st.vector|)])
  }

  /** Record k of the buffer sits k slots past the read index. */
  lemma ContentsAt<T>(st: State<T>, k: nat)
    requires Ring(st) && k < st.used
    ensures Contents(st)[k] == st.vector[Wrap(st.read + k, |st.vector|)]
  {
  }

  /** The source's `% size_` on an index at most one lap past the end. */
  lemma ModOnce(a: int, n: int)
    requires 0 < n && 0 <= a < 2 * n
    ensures a % n == if a < n then a else a - n
  {
    if a >= n {
      assert a == n + (a - n);
    }
  }

  /** In a ring the buffer is full exactly when every slot is used. */
  lemma {:induction false} RingFull<T>(st: State<T>)
    requires Ring(st)
    ensures IsFull(st) <==> st.used == |st.vector|
    ensures Ring(st) ==> CanPush(st, UseOldest) && CanPush(st, UseNewest) && CanPop(st)
  {
  }

  /** A push into a ring with a free slot appends the value. */
  lemma {:induction false} PushAppends<T>(st: State<T>, policy: Policy, value: T, blank: T)
    requires Ring(st) && st.used < |st.vector|
    ensures !IsFull(st) && CanPush(st, policy)
    ensures Ring(Pushed(st, policy, value, blank))
    ensures Contents(Pushed(st, policy, value, blank)) == Contents(st) + [value]
  {
    RingFull(st);
    var n := |st.vector|;
    var r := Pushed(st, policy, value, blank);
    ModOnce(st.write + 1, n);
    assert Ring(r);
    forall k | 0 <= k < st.used
      ensures Contents(r)[k] == Contents(st)[k]
    {
      ContentsAt(st, k);
      ContentsAt(r, k);
      assert Wrap(st.read + k, n) != st.write;
    }
    ContentsAt(r, st.used);
  }

  /** A pop from a non-empty ring yields the oldest record and leaves the
      rest. */
  lemma {:induction false} PopTakesOldest<T>(st: State<T>)
    requires Ring(st) && st.used > 0
    ensures Ring(Popped(st).1)
    ensures Popped(st).0 == Contents(st)[0] && Contents(Popped(st).1) == Contents(st)[1..]
  {
    var n := |st.vector|;
    var r := Popped(st).1;
    ModOnce(st.read + 1, n);
    assert Ring(r);
    ContentsAt(st, 0);
    forall k | 0 <= k < r.used
      ensures Contents(r)[k] == Contents(st)[1..][k]
    {
      ContentsAt(r, k);
      ContentsAt(st, k + 1);
      assert Wrap(r.read + k, n) == Wrap(st.read + (k + 1), n);
    }
  }

  /** Pushing a sequence of records in turn. */
  function PushAll<T>(st: State<T>, policy: Policy, xs: seq<T>, blank: T): (r: State<T>)
    requires Ring(st) && st.used + |xs| <= |st.vector|
    ensures Ring(r) && Contents(r) == Contents(st) + xs && |r.vector| == |st.vector|
    decreases |xs|
  {
    if xs == [] then st
    else
      PushAppends(st, policy, xs[0], blank);
      var next := Pushed(st, policy, xs[0], blank);
      var r := PushAll(next, policy, xs[1..], blank);
      assert Contents(st) + xs == Contents(st) + [xs[0]] + xs[1..];
      r
  }

  /** Popping `m` records in turn, with the values in the order popped. */
  function PopAll<T>(st: State<T>, m: nat): (r: (seq<T>, State<T>))
    requires Ring(st) && m <= st.used
    ensures Ring(r.1) && r.0 == Contents(st)[..m] && Contents(r.1) == Contents(st)[m..]
    decreases m
  {
    if m == 0 then ([], st)
    else
      PopTakesOldest(st);
      var p := Popped(st);
      var rest := PopAll(p.1, m - 1);
      assert Contents(st)[..m] == [p.0] + Contents(p.1)[..m - 1];
      assert Contents(st)[m..] == Contents(p.1)[m - 1..];
      ([p.0] + rest.0, rest.1)
  }

  /** First in, first out: records pushed into an empty ring with room for
      them all are popped in the order they were pushed. */
  lemma FifoOrder<T>(st: State<T>, policy: Policy, xs: seq<T>, blank: T)
    requires Ring(st) && st.used == 0 && |xs| <= |st.vector|
    ensures PopAll(PushAll(st, policy, xs, blank), |xs|).0 == xs
  {
    assert Contents(st) == [];
    assert Contents(PushAll(st, policy, xs, blank)) == xs;
  }

  /** USE_NEWEST overwrites the oldest slot but leaves the read index on
      it, so the next pop yields the record just pushed rather than the
      oldest one left, and the ring shape is lost unless the buffer has a
      single slot. */
  lemma NewestPopsNewest<T>(st: State<T>, value: T, blank: T)
    requires Ring(st) && st.used == |st.vector|
    ensures CanPush(st, UseNewest) && Pushed(st, UseNewest, value, blank).used > 0
    ensures Popped(Pushed(st, UseNewest, value, blank)).0 == value
    ensures Ring(Pushed(st, UseNewest, value, blank)) <==> |st.vector| == 1
  {
    RingFull(st);
    ModOnce(st.write + 1, |st.vector|);
  }

  /** The state USE_NEWEST evidently means: the oldest record is dropped,
      the read index moving past it with the write index. */
  function NewestIntended<T>(st: State<T>, value: T): (r: State<T>)
    requires Ring(st) && st.used == |st.vector|
  {
    st.(vector := st.vector[st.write := value], write := (st.write + 1) % |st.vector|,
        read := (st.read + 1) % |st.vector|)
  }

  /** That intended state keeps the ring, and its records are the old ones
      without the oldest, then the new one. */
  lemma {:induction false} NewestIntendedDropsOldest<T>(st: State<T>, value: T)
    requires Ring(st) && st.used == |st.vector|
    ensures Ring(NewestIntended(st, value))
    ensures Contents(NewestIntended(st, value)) == Contents(st)[1..] + [value]
  {
    var n := |st.vector|;
    var r := NewestIntended(st, value);
    ModOnce(st.read + 1, n);
    ModOnce(st.write + 1, n);
    assert Ring(r);
    forall k | 0 <= k < n
      ensures Contents(r)[k] == (Contents(st)[1..] + [value])[k]
    {
      ContentsAt(r, k);
      if k < n - 1 {
        ContentsAt(st, k + 1);
        assert Wrap(r.read + k, n) == Wrap(st.read + (k + 1), n) != st.write;
      } else {
        assert Wrap(r.read + k, n) == st.write;
      }
    }
  }

  /** USE_OLDEST drops the new record; THROW throws and changes nothing. */
  lemma FullBufferKept<T>(st: State<T>, value: T, blank: T)
    requires IsFull(st)
    ensures CanPush(st, UseOldest) && Pushed(st, UseOldest, value, blank) == st
    ensures CanPush(st, ThrowOnOverflow) && Pushed(st, ThrowOnOverflow, value, blank) == st
    ensures Throws(st, ThrowOnOverflow) && !Throws(st, UseNewest)
  {
  }

  /** RESIZE grows the vector by half and stores the record at index
      used_: a one-slot buffer does not grow, so that store is out of
      bounds. A full ring read from its first slot keeps its order and
      gains the new record. */
  lemma ResizeOnFull<T>(st: State<T>, value: T, blank: T)
    requires Ring(st) && st.used == |st.vector|
    ensures |st.vector| == 1 <==> !CanPush(st, ResizeOnOverflow)
    ensures CanPush(st, ResizeOnOverflow) ==>
      var r := Pushed(st, ResizeOnOverflow, value, blank);
      |r.vector| == Grown(|st.vector|) && r.used == st.used + 1 && r.write == r.used
      && (st.read == 0 ==> r.vector[..r.used] == Contents(st) + [value])
  {
    RingFull(st);
    if CanPush(st, ResizeOnOverflow) && st.read == 0 {
      var r := Pushed(st, ResizeOnOverflow, value, blank);
      ResizedContents(st.vector, Grown(|st.vector|), blank);
      forall k | 0 <= k < st.used
        ensures r.vector[k] == Contents(st)[k]
      {
        ContentsAt(st, k);
      }
    }
  }

  /** RecordBuffer<T>, its state held in `vector`, `read`, `write` and
      `used`. */
  class RecordBuffer<T> {
    /** T(): the value std::vector::resize gives new slots. */
    const blank: T
    var vector: seq<T>
    var read: nat
    var write: nat
    var used: nat
    var policy: Policy

    function Current(): State<T>
      reads this
    {
      State(vector, read, write, used)
    }

    /** RecordBuffer(size): `size` slots, nothing used, USE_NEWEST. */
    constructor (blank: T, size: nat)
      ensures this.blank == blank && Current() == State(Filled(blank, size), 0, 0, 0)
      ensures policy == UseNewest
      ensures size > 0 ==> Ring(Current()) && Contents(Current()) == []
    {
      this.blank := blank;
      read, write, used := 0, 0, 0;
      policy := UseNewest;
      vector := Resized([], size, blank);
    }

    /** resize(size): the vector alone is resized; the indices stay. */
    method Resize(size: nat)
      modifies this`vector
      ensures vector == Resized(old(vector), size, blank)
    {
      vector := Resized(vector, size, blank);
    }

    /** clear(): no slots and all indices zero. */
    method Clear()
      modifies this`vector, this`read, this`write, this`used
      ensures Current() == State([], 0, 0, 0)
    {
      vector := [];
      read, write, used := 0, 0, 0;
    }

    function Size(): nat
      reads this
    {
      |vector|
    }

    method SetOverflowPolicy(p: Policy)
      modifies this`policy
      ensures policy == p
    {
      policy := p;
    }

    /** push(value) */
    method Push(value: T) returns (r: Outcome<Failure>)
      requires CanPush(Current(), policy)
      modifies this`vector, this`read, this`write, this`used
      ensures Current() == Pushed(old(Current()), policy, value, blank)
      ensures r == if Throws(old(Current()), policy) then Fail(Overflow) else Pass
    {
      if !IsFull(Current()) {
        vector := vector[write := value];
        write := (write + 1) % |vector|;
        used := Min(used + 1, |vector|);
        return Pass;
      }
      match policy
      case UseOldest =>
        return Pass;
      case UseNewest =>
        vector := vector[write := value];
        write := (write + 1) % |vector|;
        return Pass;
      case ResizeOnOverflow =>
        Resize(Grown(|vector|));
        vector := vector[used := value];
        used := used + 1;
        write := used;
        return Pass;
      case ThrowOnOverflow =>
        return Fail(Overflow);
    }

    /** pop(): UnderflowException when empty, else the oldest record. */
    method Pop() returns (r: Result<T, Failure>)
      requires CanPop(Current())
      modifies this`read, this`used
      ensures old(used) == 0 ==> r == Err(Underflow) && Current() == old(Current())
      ensures old(used) > 0 ==> r == Ok(Popped(old(Current())).0) && Current() == Popped(old(Current())).1
    {
      if IsEmpty(Current()) {
        return Err(Underflow);
      }
      var result := vector[read];
      read := (read + 1) % |vector|;
      used := used - 1;
      return Ok(result);
    }

    /** getElementAtWritePosition() */
    function AtWrite(): T
      reads this
      requires write < |vector|
    {
      vector[write]
    }
  }
}
