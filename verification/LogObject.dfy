/** The log object as log.c updates it: counters, heap buffer, size and capacity in place.

    Each method is a stretch of code that runs without giving up the mutex. Where the source waits,
    the method reports that its caller has to; what happens while it sleeps is the subject of the
    step system. */
module LogObject {
  import opened Memory
  import opened LockCounters
  import opened Growth

  class ServerLog {
    var readers: int
    var writers: int
    var waitingWriters: int
    var buffer: array<char>
    var size: nat
    var capacity: nat

    /** Bytes moved by reallocation so far. */
    ghost var moved: nat

    ghost predicate Valid()
      reads this, buffer
    {
      && buffer.Length == capacity && size < capacity && buffer[size] == NUL
      && Bounded(Size(), 0)
    }

    ghost function Size(): Usage
      reads this
    {
      Usage(capacity, size, moved)
    }

    /** Everything appended so far. */
    ghost function Contents(): string
      requires Valid()
      reads this, buffer
    {
      buffer[..size]
    }

    function Lock(): Counters
      reads this
    {
      Counters(readers, writers, waitingWriters)
    }

    /** create_log */
    constructor ()
      ensures Valid() && fresh(buffer) && Contents() == "" && Lock() == CREATED && Size() == CreateUsage()
      ensures readers == 0 && writers == 0 && waitingWriters == 0 && capacity == 4096
    {
      capacity := INITIAL_CAPACITY;
      size := 0;
      var block := new char[INITIAL_CAPACITY];
      block[0] := NUL;
      buffer := block;
      readers, writers, waitingWriters := 0, 0, 0;
      moved := 0;
      CreatedBounded();
    }

    // ---------------------------------------------------------------- the lock

    /** One pass of the loop test in log_start_read. */
    method TryStartRead() returns (admitted: bool)
      modifies this`readers
      ensures admitted <==> !ReaderMustWait(old(Lock()))
      ensures Lock() == if admitted then AdmitReader(old(Lock())) else old(Lock())
      ensures admitted <==> writers <= 0 && waitingWriters <= 0
      ensures readers == old(readers) + if admitted then 1 else 0
    {
      admitted := !(writers > 0 || waitingWriters > 0);
      if admitted {
        readers := readers + 1;
      }
    }

    /** log_end_read */
    method EndRead() returns (wakeup: Wakeup)
      modifies this`readers
      ensures Lock() == RetireReader(old(Lock())) && wakeup == WakeupAfterRead(old(Lock()))
      ensures readers == old(readers) - 1 && wakeup == if readers == 0 then SignalWriter else NoWakeup
    {
      readers := readers - 1;
      wakeup := if readers == 0 then SignalWriter else NoWakeup;
    }

    /** The first statement of log_start_write under the mutex. */
    method Register()
      modifies this`waitingWriters
      ensures Lock() == RegisterWriter(old(Lock())) && waitingWriters == old(waitingWriters) + 1
    {
      waitingWriters := waitingWriters + 1;
    }

    /** One pass of the loop test in log_start_write. */
    method TryStartWrite() returns (admitted: bool)
      modifies this`waitingWriters, this`writers
      ensures admitted <==> !WriterMustWait(old(Lock()))
      ensures Lock() == if admitted then AdmitWriter(old(Lock())) else old(Lock())
      ensures admitted <==> readers <= 0 && old(writers) <= 0
      ensures admitted ==> writers == 1 && waitingWriters == old(waitingWriters) - 1
    {
      admitted := !(readers > 0 || writers > 0);
      if admitted {
        waitingWriters := waitingWriters - 1;
        writers := 1;
      }
    }

    /** log_end_write */
    method EndWrite() returns (wakeup: Wakeup)
      modifies this`writers
      ensures Lock() == RetireWriter(old(Lock())) && wakeup == WakeupAfterWrite(old(Lock()))
      ensures writers == 0 && wakeup == if waitingWriters > 0 then SignalWriter else BroadcastReaders
    {
      writers := 0;
      wakeup := if waitingWriters > 0 then SignalWriter else BroadcastReaders;
    }

    // ---------------------------------------------------------------- the bodies

    /** The doubling loop of add_to_log. */
    static method GrowCapacity(capacity: nat, size: nat, len: nat) returns (c: nat)
      requires capacity > 0
      ensures c == NewCapacity(capacity, size, len) && c >= size + len + 1
      ensures c == 2 * capacity || c < 2 * (size + len + 1)
      ensures exists j: nat :: c == 2 * capacity * Pow2(j)
    {
      DoubledIsLeast(2 * capacity, size + len + 1);
      c := capacity * 2;
      while c < size + len + 1
        invariant c > 0 && Doubled(c, size + len + 1) == NewCapacity(capacity, size, len)
        decreases size + len + 1 - c
      {
        c := c * 2;
      }
    }

    /** The reallocation of add_to_log. */
    method EnsureRoom(len: nat)
      requires Valid()
      modifies this`buffer, this`capacity, this`moved
      ensures Size() == MakeRoom(old(Size()), len)
      ensures if old(capacity) <= size + len + 1 then fresh(buffer) else buffer == old(buffer)
      ensures moved == old(moved) + if old(capacity) <= size + len + 1 then size else 0
      ensures buffer.Length == capacity && size + len < capacity && buffer[..size] == old(Contents())
    {
      if size + len + 1 >= capacity {
        var newCapacity := GrowCapacity(capacity, size, len);
        var block := new char[newCapacity];
        Memcpy(block, 0, buffer[..size]);
        buffer := block;
        capacity := newCapacity;
        moved := moved + size;
      }
    }

    /** The body of add_to_log, between log_start_write and log_end_write. */
    method Append(data: string)
      requires Valid() && data != ""
      modifies this`buffer, this`capacity, this`moved, this`size, buffer
      ensures Valid() && (buffer == old(buffer) || fresh(buffer))
      ensures Contents() == old(Contents()) + data
      ensures Size() == AppendUsage(old(Size()), |data|)
    {
      MakeRoomKeepsBound(Size(), |data|);
      EnsureRoom(|data|);
      Store(data);
    }

    /** The last lines of add_to_log: the entry, the new size, the terminating NUL. */
    method Store(data: string)
      requires size + |data| < buffer.Length
      modifies this`size, buffer
      ensures size == old(size) + |data|
      ensures buffer[..size] == old(buffer[..size]) + data && buffer[size] == NUL
    {
      Memcpy(buffer, size, data);
      assert buffer[..size + |data|] == buffer[..size] + buffer[size..size + |data|];
      size := size + |data|;
      buffer[size] := NUL;
    }

    /** The body of get_log: the text with its terminating NUL, and the number returned. */
    method Snapshot() returns (dst: array<char>, n: nat)
      requires Valid()
      ensures fresh(dst) && dst[..] == Contents() + [NUL] && n == |Contents()|
    {
      dst := new char[size + 1];
      Memcpy(dst, 0, buffer[..size + 1]);
      n := size;
      assert dst[..] == dst[0..size + 1];
    }

    // ---------------------------------------------------------------- whole calls, when nobody else is there

    /** add_to_log by a thread that finds the lock free: the lock is left as it was. */
    method AddToLog(data: string)
      requires Valid() && readers == 0 && writers == 0
      modifies this, buffer
      ensures Valid() && (buffer == old(buffer) || fresh(buffer)) && Lock() == old(Lock())
      ensures Contents() == old(Contents()) + data
    {
      if data == "" {
        return;
      }
      Register();
      var admitted := TryStartWrite();
      Append(data);
      var wakeup := EndWrite();
    }

    /** get_log by a thread that finds no writer: the lock is left as it was. */
    method GetLog() returns (dst: array<char>, n: nat)
      requires Valid() && !ReaderMustWait(Lock())
      modifies this
      ensures Valid() && buffer == old(buffer) && Lock() == old(Lock()) && Contents() == old(Contents())
      ensures fresh(dst) && dst[..] == Contents() + [NUL] && n == |Contents()|
    {
      var admitted := TryStartRead();
      dst, n := Snapshot();
      var wakeup := EndRead();
    }
  }
}
