/** The bounded request queue (server.c): a ring buffer with two counters. `size` counts requests
    queued or in service, `queued` (`dequeueing_size`) only those queued. */
module BoundedQueue {
  import opened Clock

  datatype Request = Request(connfd: int, arrival: Timeval)

  /** The index after `i` in a ring of `capacity` slots. */
  function After(i: nat, capacity: nat): (j: nat)
    requires i < capacity
    ensures j == if i + 1 == capacity then 0 else i + 1
  {
    (i + 1) % capacity
  }

  /** The `i`-th slot from `front`, going round. */
  function Slot(front: nat, i: nat, capacity: nat): nat
  {
    if front + i < capacity then front + i else front + i - capacity
  }

  lemma SlotIsModular(front: nat, i: nat, capacity: nat)
    requires front < capacity && i <= capacity
    ensures Slot(front, i, capacity) == (front + i) % capacity
  {
    if front + i < capacity {
      WithinRound(0, front + i, capacity);
    } else {
      WithinRound(1, front + i - capacity, capacity);
    }
  }

  lemma WithinRound(rounds: nat, r: nat, capacity: nat)
    requires r < capacity && rounds <= 1
    ensures (rounds * capacity + r) % capacity == r
  {
  }

  // ---------------------------------------------------------------- the ring as a value

  datatype Ring = Ring(slots: seq<Request>, front: nat, rear: nat, size: nat, queued: nat)
  {
    function Capacity(): nat
    {
      |slots|
    }

    predicate Ok()
    {
      && Capacity() > 0
      && front < Capacity()
      && queued <= size <= Capacity()
      && rear == Slot(front, queued, Capacity())
    }

    predicate Full()
    {
      size == Capacity()
    }

    /** The queued requests, oldest first. */
    function Queue(): (q: seq<Request>)
      requires Ok()
    {
      seq(queued, i requires 0 <= i < queued => slots[Slot(front, i, Capacity())])
    }

    function Put(r: Request): Ring
      requires rear < Capacity()
    {
      Ring(slots[rear := r], front, After(rear, Capacity()), size + 1, queued + 1)
    }

    function First(): Request
      requires front < Capacity()
    {
      slots[front]
    }

    function Take(): Ring
      requires front < Capacity() && queued > 0
    {
      Ring(slots, After(front, Capacity()), rear, size, queued - 1)
    }

    function Release(): Ring
      requires size > 0
    {
      Ring(slots, front, rear, size - 1, queued)
    }
  }

  /** Storing in a ring that is not full appends to the queue and overwrites nothing undelivered. */
  lemma PutAppends(q: Ring, r: Request)
    requires q.Ok() && !q.Full()
    ensures q.rear < q.Capacity()
    ensures q.Put(r).Ok() && q.Put(r).Queue() == q.Queue() + [r]
  {
    forall i | 0 <= i < q.queued ensures q.Put(r).Queue()[i] == q.Queue()[i] {
    }
  }

  /** Taking returns the oldest request and leaves the others in order. */
  lemma TakeRemovesFirst(q: Ring)
    requires q.Ok() && q.queued > 0
    ensures q.Take().Ok() && q.Queue() == [q.First()] + q.Take().Queue()
  {
    forall i | 0 < i < q.queued ensures q.Queue()[i] == q.Take().Queue()[i - 1] {
      assert Slot(q.Take().front, i - 1, q.Capacity()) == Slot(q.front, i, q.Capacity());
    }
  }

  lemma ReleaseKeepsQueue(q: Ring)
    requires q.Ok() && q.queued < q.size
    ensures q.Release().Ok() && q.Release().Queue() == q.Queue()
  {
  }

  // ---------------------------------------------------------------- the ring in memory

  /** The queue as server.c updates it. Each method is one pass through the locked section: when the
      loop test says wait, nothing changes and the caller goes to sleep on the condition variable. */
  class RequestQueue {
    var buffer: array<Request>
    var capacity: nat
    var size: nat
    var front: nat
    var rear: nat
    var dequeueingSize: nat

    ghost predicate Valid()
      reads this, buffer
    {
      buffer.Length == capacity && View().Ok()
    }

    ghost function View(): Ring
      reads this, buffer
    {
      Ring(buffer[..], front, rear, size, dequeueingSize)
    }

    /** init_queue; `unset` is the uninitialised memory of the slots. */
    constructor (capacity: nat, unset: Request)
      requires capacity > 0
      ensures Valid() && fresh(buffer)
      ensures View().Capacity() == capacity && View().size == 0 && View().Queue() == []
    {
      this.buffer := new Request[capacity](_ => unset);
      this.capacity := capacity;
      this.size, this.front, this.rear, this.dequeueingSize := 0, 0, 0, 0;
    }

    /** enqueue: refuses (the caller waits on not_full) exactly when `size == capacity`. */
    method Enqueue(connfd: int, arrival: Timeval) returns (stored: bool)
      requires Valid()
      modifies this, buffer
      ensures Valid() && buffer == old(buffer) && capacity == old(capacity)
      ensures stored <==> old(size) < capacity
      ensures View() == if stored then old(View()).Put(Request(connfd, arrival)) else old(View())
      ensures View().Queue() == old(View().Queue()) + if stored then [Request(connfd, arrival)] else []
    {
      ghost var before := View();
      stored := size != capacity;
      if stored {
        PutAppends(before, Request(connfd, arrival));
        buffer[rear] := Request(connfd, arrival);
        rear := After(rear, capacity);
        size := size + 1;
        dequeueingSize := dequeueingSize + 1;
        assert View() == before.Put(Request(connfd, arrival));
      }
    }

    /** dequeue: refuses (the caller waits on not_empty) exactly when nothing is queued. The slot
        stays counted in `size` until FinishHandling. */
    method Dequeue(fallback: Request) returns (taken: bool, req: Request)
      requires Valid()
      modifies this
      ensures Valid() && buffer == old(buffer) && capacity == old(capacity) && size == old(size)
      ensures taken <==> old(View().Queue()) != []
      ensures taken ==> old(View().Queue()) == [req] + View().Queue()
      ensures View() == if taken then old(View()).Take() else old(View())
    {
      taken, req := dequeueingSize != 0, fallback;
      if taken {
        TakeRemovesFirst(View());
        req := buffer[front];
        front := After(front, capacity);
        dequeueingSize := dequeueingSize - 1;
      }
    }

    /** finishHandling: gives back one slot of a request in service. */
    method FinishHandling()
      requires Valid() && dequeueingSize < size
      modifies this`size
      ensures Valid() && View() == old(View()).Release()
      ensures View().Queue() == old(View().Queue())
    {
      ReleaseKeepsQueue(View());
      size := size - 1;
    }
  }
}
