/** The shared log as a step system (log.c): any number of threads, each with a program of
    `get_log` and `add_to_log` calls, interleaved at every access to shared memory.

    Sections that only touch the counters run under the mutex and are one step after the step
    that takes it. A writer keeps the mutex from its admission to `log_end_write`; its body is
    split into its own steps. A reader's body runs without the mutex, byte by byte. */
module LogMachine {
  import opened LockCounters
  import opened Growth
  import opened Memory

  datatype Op = GetLog | AddToLog(data: string)

  datatype Pc =
    | Idle
      // get_log
    | ReadGate                                                // holds the mutex, at the while test
    | ReadAsleep
    | ReadWoken                                               // out of the wait set, wants the mutex
    | ReadAllocate(seen: nat)                                 // admitted; next: Malloc(size + 1)
    | ReadMeasure(seen: nat, room: nat)                       // next: the length given to memcpy
    | ReadCopy(seen: nat, room: nat, len: nat, dst: string)   // memcpy in progress
    | ReadResult(seen: nat, dst: string)                      // next: result_size = size
    | ReadLeave(seen: nat, dst: string, result: nat)          // wants the mutex in log_end_read
      // add_to_log
    | WriteGate                                               // registered, holds the mutex, at the while test
    | WriteAsleep
    | WriteWoken
    | WriteTest                                               // admitted; next: the capacity test
    | WriteMove(block: string, moved: nat)                    // memcpy into the new buffer in progress
    | WriteCopy(copied: nat)                                  // memcpy of the entry in progress
    | WriteTerminate                                          // next: the terminating NUL
    | WriteLeave                                              // next: log_end_write

  datatype Thread = Thread(pc: Pc, todo: seq<Op>)

  datatype Mutex = Free | Held(owner: nat)

  datatype Entry = Entry(writer: nat, data: string)

  /** What one `get_log` returned, with the number of finished appends when it was admitted. */
  datatype Snapshot = Snapshot(reader: nat, seen: nat, dst: string, result: nat)

  /** `history` and `snapshots` record finished calls in order; `usage.moved` counts bytes moved by
      reallocation; `spurious` is the number of spurious wakeups still to come. */
  datatype State = State(
    mutex: Mutex,
    counters: Counters,
    buffer: string,
    usage: Usage,
    threads: seq<Thread>,
    history: seq<Entry>,
    snapshots: seq<Snapshot>,
    spurious: nat)

  /** One step of thread `t`. `wake` is the set of sleepers that a signal or broadcast unblocks and
      `block` the uninitialised memory that an allocation returns. */
  datatype Action = Run(t: nat, wake: set<nat>, block: string) | Spurious(t: nat)

  // ---------------------------------------------------------------- initial states

  ghost predicate Init(s: State)
  {
    && s.mutex == Free
    && s.counters == CREATED
    && s.usage == CreateUsage()
    && |s.buffer| == s.usage.capacity && s.buffer[0] == NUL
    && (forall t | 0 <= t < |s.threads| :: s.threads[t].pc == Idle)
    && s.history == [] && s.snapshots == []
  }

  // ---------------------------------------------------------------- wait sets

  function Sleepers(ts: seq<Thread>, pc: Pc): set<nat>
  {
    set t: nat | t < |ts| && ts[t].pc == pc
  }

  /** POSIX: a signal unblocks at least one sleeper if there is any, a broadcast all of them. */
  predicate ValidWake(ts: seq<Thread>, w: Wakeup, wake: set<nat>)
  {
    match w
    case NoWakeup => wake == {}
    case SignalWriter => wake <= Sleepers(ts, WriteAsleep) && (Sleepers(ts, WriteAsleep) != {} ==> wake != {})
    case BroadcastReaders => wake == Sleepers(ts, ReadAsleep)
  }

  function Woken(pc: Pc): Pc
  {
    match pc
    case ReadAsleep => ReadWoken
    case WriteAsleep => WriteWoken
    case _ => pc
  }

  function WakeAll(ts: seq<Thread>, wake: set<nat>): (r: seq<Thread>)
    ensures |r| == |ts|
    ensures forall t | 0 <= t < |ts| :: r[t] == if t in wake then ts[t].(pc := Woken(ts[t].pc)) else ts[t]
  {
    seq(|ts|, t requires 0 <= t < |ts| => if t in wake then ts[t].(pc := Woken(ts[t].pc)) else ts[t])
  }

  // ---------------------------------------------------------------- steps

  /** The entry that thread `t` is appending. */
  function DataOf(s: State, t: nat): string
    requires t < |s.threads|
  {
    var todo := s.threads[t].todo;
    if todo != [] && todo[0].AddToLog? then todo[0].data else ""
  }

  function WakeupOf(s: State, t: nat): Wakeup
    requires t < |s.threads|
  {
    match s.threads[t].pc
    case ReadLeave(_, _, _) => WakeupAfterRead(s.counters)
    case WriteLeave => WakeupAfterWrite(s.counters)
    case _ => NoWakeup
  }

  /** What must hold for thread `t` to take its next step: the mutex if it needs it, memory accesses
      within their blocks, a positive capacity. Progress (below) shows that the last two never fail. */
  predicate Ready(s: State, t: nat)
    requires t < |s.threads|
  {
    match s.threads[t].pc
    case Idle => s.threads[t].todo != [] && (s.mutex == Free || s.threads[t].todo[0] == AddToLog(""))
    case ReadGate => true
    case ReadAsleep => false
    case ReadWoken => s.mutex == Free
    case ReadAllocate(_) => true
    case ReadMeasure(_, _) => true
    case ReadCopy(_, room, len, dst) => |dst| < len ==> |dst| < room && |dst| < |s.buffer|
    case ReadResult(_, _) => true
    case ReadLeave(_, _, _) => s.mutex == Free
    case WriteGate => true
    case WriteAsleep => false
    case WriteWoken => s.mutex == Free
    case WriteTest => s.usage.capacity > 0
    case WriteMove(block, moved) => moved < s.usage.size ==> moved < |block| && moved < |s.buffer|
    case WriteCopy(copied) => copied < |DataOf(s, t)| ==> s.usage.size + copied < |s.buffer|
    case WriteTerminate => s.usage.size < |s.buffer|
    case WriteLeave => true
  }

  predicate Enabled(s: State, a: Action)
  {
    match a
    case Spurious(t) =>
      s.spurious > 0 && t < |s.threads| && s.threads[t].pc in {ReadAsleep, WriteAsleep}
    case Run(t, wake, block) =>
      && t < |s.threads|
      && Ready(s, t)
      && ValidWake(s.threads, WakeupOf(s, t), wake)
      && |block| == if s.threads[t].pc == WriteTest then MakeRoom(s.usage, |DataOf(s, t)|).capacity else 0
  }

  function Goto(s: State, t: nat, pc: Pc): State
    requires t < |s.threads|
  {
    s.(threads := s.threads[t := s.threads[t].(pc := pc)])
  }

  /** Thread `t` returns from its current call. */
  function Return(s: State, t: nat): State
    requires t < |s.threads| && s.threads[t].todo != []
  {
    s.(threads := s.threads[t := Thread(Idle, s.threads[t].todo[1..])])
  }

  function StartCall(s: State, t: nat): State
    requires t < |s.threads| && s.threads[t].todo != []
  {
    match s.threads[t].todo[0]
    case GetLog => Goto(s, t, ReadGate).(mutex := Held(t))
    case AddToLog(data) =>
      if data == "" then Return(s, t)
      else Goto(s, t, WriteGate).(mutex := Held(t), counters := RegisterWriter(s.counters))
  }

  function TestReadGate(s: State, t: nat): State
    requires t < |s.threads|
  {
    if ReaderMustWait(s.counters) then Goto(s, t, ReadAsleep).(mutex := Free)
    else Goto(s, t, ReadAllocate(|s.history|)).(mutex := Free, counters := AdmitReader(s.counters))
  }

  function TestWriteGate(s: State, t: nat): State
    requires t < |s.threads|
  {
    if WriterMustWait(s.counters) then Goto(s, t, WriteAsleep).(mutex := Free)
    else Goto(s, t, WriteTest).(counters := AdmitWriter(s.counters))
  }

  function CopyOut(s: State, t: nat): State
    requires t < |s.threads| && s.threads[t].pc.ReadCopy? && Ready(s, t)
  {
    var ReadCopy(seen, room, len, dst) := s.threads[t].pc;
    if |dst| < len then Goto(s, t, ReadCopy(seen, room, len, dst + [s.buffer[|dst|]]))
    else Goto(s, t, ReadResult(seen, dst))
  }

  function LeaveRead(s: State, t: nat, wake: set<nat>): State
    requires t < |s.threads| && s.threads[t].pc.ReadLeave?
  {
    var ReadLeave(seen, dst, result) := s.threads[t].pc;
    var s1 := if s.threads[t].todo == [] then Goto(s, t, Idle) else Return(s, t);
    s1.(threads := WakeAll(s1.threads, wake),
        counters := RetireReader(s.counters),
        snapshots := s.snapshots + [Snapshot(t, seen, dst, result)])
  }

  function TestCapacity(s: State, t: nat, block: string): State
    requires t < |s.threads|
  {
    if MustGrow(s.usage.capacity, s.usage.size, |DataOf(s, t)|) then Goto(s, t, WriteMove(block, 0))
    else Goto(s, t, WriteCopy(0))
  }

  function MoveByte(s: State, t: nat): State
    requires t < |s.threads| && s.threads[t].pc.WriteMove? && Ready(s, t)
  {
    var WriteMove(block, moved) := s.threads[t].pc;
    if moved < s.usage.size then Goto(s, t, WriteMove(block[moved := s.buffer[moved]], moved + 1))
    else Goto(s, t, WriteCopy(0)).(buffer := block, usage := Usage(|block|, s.usage.size, s.usage.moved + s.usage.size))
  }

  function CopyIn(s: State, t: nat): State
    requires t < |s.threads| && s.threads[t].pc.WriteCopy? && Ready(s, t)
  {
    var copied := s.threads[t].pc.copied;
    var data := DataOf(s, t);
    if copied < |data| then
      Goto(s, t, WriteCopy(copied + 1)).(buffer := s.buffer[s.usage.size + copied := data[copied]])
    else
      Goto(s, t, WriteTerminate).(usage := s.usage.(size := s.usage.size + |data|))
  }

  function LeaveWrite(s: State, t: nat, wake: set<nat>): State
    requires t < |s.threads|
  {
    var s1 := if s.threads[t].todo == [] then Goto(s, t, Idle) else Return(s, t);
    s1.(threads := WakeAll(s1.threads, wake),
        counters := RetireWriter(s.counters),
        mutex := Free,
        history := s.history + [Entry(t, DataOf(s, t))])
  }

  function StepOf(s: State, t: nat, wake: set<nat>, block: string): State
    requires t < |s.threads| && Ready(s, t)
  {
    match s.threads[t].pc
    case Idle => StartCall(s, t)
    case ReadGate => TestReadGate(s, t)
    case ReadAsleep => s
    case ReadWoken => Goto(s, t, ReadGate).(mutex := Held(t))
    case ReadAllocate(seen) => Goto(s, t, ReadMeasure(seen, s.usage.size + 1))
    case ReadMeasure(seen, room) => Goto(s, t, ReadCopy(seen, room, s.usage.size + 1, ""))
    case ReadCopy(_, _, _, _) => CopyOut(s, t)
    case ReadResult(seen, dst) => Goto(s, t, ReadLeave(seen, dst, s.usage.size))
    case ReadLeave(_, _, _) => LeaveRead(s, t, wake)
    case WriteGate => TestWriteGate(s, t)
    case WriteAsleep => s
    case WriteWoken => Goto(s, t, WriteGate).(mutex := Held(t))
    case WriteTest => TestCapacity(s, t, block)
    case WriteMove(_, _) => MoveByte(s, t)
    case WriteCopy(_) => CopyIn(s, t)
    case WriteTerminate => Goto(s, t, WriteLeave).(buffer := s.buffer[s.usage.size := NUL])
    case WriteLeave => LeaveWrite(s, t, wake)
  }

  function Apply(s: State, a: Action): State
    requires Enabled(s, a)
  {
    match a
    case Spurious(t) => Goto(s, t, Woken(s.threads[t].pc)).(spurious := s.spurious - 1)
    case Run(t, wake, block) => StepOf(s, t, wake, block)
  }

  ghost predicate Next(s: State, s': State)
  {
    exists a :: Enabled(s, a) && s' == Apply(s, a)
  }

  /** A thread is handed one more call (the composed server does this between log steps). */
  function Submit(s: State, t: nat, op: Op): State
    requires t < |s.threads|
  {
    s.(threads := s.threads[t := s.threads[t].(todo := s.threads[t].todo + [op])])
  }
}
