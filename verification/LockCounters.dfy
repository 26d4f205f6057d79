/** The three counters of the log's readers/writers lock and the decisions taken on them while
    the mutex is held (log.c). */
module LockCounters {

  datatype Counters = Counters(readers: int, writers: int, waitingWriters: int)

  datatype Wakeup = NoWakeup | SignalWriter | BroadcastReaders

  const CREATED := Counters(0, 0, 0)

  predicate ReaderMustWait(c: Counters)
  {
    c.writers > 0 || c.waitingWriters > 0
  }

  predicate WriterMustWait(c: Counters)
  {
    c.readers > 0 || c.writers > 0
  }

  function AdmitReader(c: Counters): Counters
  {
    c.(readers := c.readers + 1)
  }

  function RetireReader(c: Counters): Counters
  {
    c.(readers := c.readers - 1)
  }

  function WakeupAfterRead(c: Counters): Wakeup
  {
    if RetireReader(c).readers == 0 then SignalWriter else NoWakeup
  }

  function RegisterWriter(c: Counters): Counters
  {
    c.(waitingWriters := c.waitingWriters + 1)
  }

  function AdmitWriter(c: Counters): Counters
  {
    c.(waitingWriters := c.waitingWriters - 1, writers := 1)
  }

  function RetireWriter(c: Counters): Counters
  {
    c.(writers := 0)
  }

  function WakeupAfterWrite(c: Counters): Wakeup
  {
    if c.waitingWriters > 0 then SignalWriter else BroadcastReaders
  }
}
