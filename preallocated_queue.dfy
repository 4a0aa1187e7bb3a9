/** PreallocatedQueue<T>: despite its name a stack over a preallocated
    std::vector. `front` counts the used elements; pushes go to index
    `front` and the most recent push is the front. A push into a full vector
    first grows it by `autoResize` elements when that is positive. */
module PreallocatedQueues {
  import opened Wrappers
  import opened BufferSpec

  /** The "queue is empty" exception. */
  datatype Failure = QueueEmpty

  /** vector_, front_, autoResize_ */
  datatype Queue<T> = Queue(vector: seq<T>, front: nat, autoResize: nat)

  /** The used elements never outnumber the slots. */
  predicate Valid<T>(q: Queue<T>) { q.front <= |q.vector| }

  /** The used elements, oldest first; the last is the front. */
  function Items<T>(q: Queue<T>): (r: seq<T>)
    requires Valid(q)
    ensures |r| == q.front
  {
    q.vector[..q.front]
  }

  predicate IsEmpty<T>(q: Queue<T>) { q.front == 0 }

  function Available<T>(q: Queue<T>): int { |q.vector| - q.front }

  /** resize(s): the vector resized (std::vector::resize fills new slots
      with `blank`), `front` clamped to the new size. */
  function ResizedTo<T>(q: Queue<T>, s: nat, blank: T): (r: Queue<T>)
    ensures Valid(r) && |r.vector| == s && r.front == Min(q.front, s)
    ensures Valid(q) ==> Items(r) == Items(q)[..Min(q.front, s)]
  {
    var r := q.(vector := Resized(q.vector, s, blank), front := Min(q.front, s));
    ResizedContents(q.vector, s, blank);
    r
  }

  /** The write of push is inside the vector: there is a free slot, or the
      queue grows. With autoResize 0 and no free slot the guard
      `front_ <= size()` still lets the write through, one past the end. */
  predicate CanPush<T>(q: Queue<T>) {
    q.front < |q.vector| || q.autoResize > 0
  }

  /** push(value): grow by autoResize if full and allowed, then store at
      `front` and count it. */
  function Pushed<T>(q: Queue<T>, value: T, blank: T): (r: Queue<T>)
    requires Valid(q) && CanPush(q)
    ensures Valid(r)
  {
    var g := if q.front >= |q.vector| && q.autoResize > 0
             then ResizedTo(q, |q.vector| + q.autoResize, blank) else q;
    g.(vector := g.vector[g.front := value], front := g.front + 1)
  }

  /** pop(): one element fewer, or the exception when there is none. */
  function Popped<T>(q: Queue<T>): (r: Result<Queue<T>, Failure>)
  {
    if q.front > 0 then Ok(q.(front := q.front - 1)) else Err(QueueEmpty)
  }

  /** front(): the element at front - 1, or the exception. */
  function Front<T>(q: Queue<T>): (r: Result<T, Failure>)
    requires Valid(q)
  {
    if q.front > 0 then Ok(q.vector[q.front - 1]) else Err(QueueEmpty)
  }

  /** Last in, first out: a push adds its value at the end of the items,
      which front() then yields; the slot count grows by exactly
      autoResize when the vector was full, and not otherwise. */
  lemma PushOnTop<T>(q: Queue<T>, value: T, blank: T)
    requires Valid(q) && CanPush(q)
    ensures Items(Pushed(q, value, blank)) == Items(q) + [value]
    ensures Front(Pushed(q, value, blank)) == Ok(value)
    ensures |Pushed(q, value, blank).vector|
      == if q.front == |q.vector| then |q.vector| + q.autoResize else |q.vector|
  {
    var g := if q.front >= |q.vector| && q.autoResize > 0
             then ResizedTo(q, |q.vector| + q.autoResize, blank) else q;
    assert Items(g) == Items(q);
    assert Items(Pushed(q, value, blank)) == g.vector[g.front := value][..g.front + 1];
  }

  /** A pop undoes a push, and pops and fronts fail exactly on an empty
      queue. */
  lemma PopUndoesPush<T>(q: Queue<T>, value: T, blank: T)
    requires Valid(q) && CanPush(q)
    ensures Popped(Pushed(q, value, blank)).Ok?
    ensures Items(Popped(Pushed(q, value, blank)).value) == Items(q)
    ensures Popped(q).Err? <==> IsEmpty(q)
    ensures Front(q).Err? <==> IsEmpty(q)
    ensures Popped(q).Ok? ==> Items(Popped(q).value) == Items(q)[..q.front - 1]
  {
    PushOnTop(q, value, blank);
    var p := Popped(Pushed(q, value, blank)).value;
    assert Items(p) == (Items(q) + [value])[..q.front];
  }

  /** A full vector without auto-resize admits no push: the write would go
      one past the end, though the source's guard lets it through. */
  lemma FullWithoutAutoResize<T>(q: Queue<T>)
    requires Valid(q) && q.front == |q.vector| && q.autoResize == 0
    ensures !CanPush(q) && q.front <= |q.vector|
  {
  }

  class PreallocatedQueue<T> {
    /** T(): what std::vector::resize puts into new slots. */
    const blank: T
    var vector: seq<T>
    var front: nat
    var autoResize: nat

    function Current(): Queue<T>
      reads this
    {
      Queue(vector, front, autoResize)
    }

    /** PreallocatedQueue(size, autoResize): `size` free slots. */
    constructor (blank: T, size: nat, autoResize: nat)
      ensures this.blank == blank && Current() == Queue(Filled(blank, size), 0, autoResize)
    {
      this.blank := blank;
      front := 0;
      this.autoResize := autoResize;
      vector := [];
      new;
      Resize(size);
    }

    function Size(): nat
      reads this
    {
      |vector|
    }

    method SetAutoResize(n: nat)
      modifies this`autoResize
      ensures autoResize == n
    {
      autoResize := n;
    }

    method Resize(s: nat)
      modifies this`vector, this`front
      ensures Current() == ResizedTo(old(Current()), s, blank)
    {
      vector := Resized(vector, s, blank);
      front := Min(front, |vector|);
    }

    method Push(value: T)
      requires Valid(Current()) && CanPush(Current())
      modifies this`vector, this`front
      ensures Current() == Pushed(old(Current()), value, blank)
    {
      var s := |vector|;
      if front >= s && autoResize > 0 {
        Resize(s + autoResize);
      }
      if front <= |vector| {
        vector := vector[front := value];
        front := front + 1;
      }
    }

    method Pop() returns (r: Outcome<Failure>)
      modifies this`front
      ensures Popped(old(Current())) == if r.Pass? then Ok(Current()) else Err(QueueEmpty)
      ensures r.Fail? ==> front == old(front)
    {
      if front > 0 {
        front := front - 1;
        return Pass;
      }
      return Fail(QueueEmpty);
    }

    method Top() returns (r: Result<T, Failure>)
      requires Valid(Current())
      ensures r == Front(Current())
    {
      if front > 0 {
        return Ok(vector[front - 1]);
      }
      return Err(QueueEmpty);
    }
  }
}
