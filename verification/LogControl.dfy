/** The control invariant of the log's lock: mutex ownership, exact counters, reader/writer
    exclusion and the absence of lost wakeups, kept by every step. */
module LogControl {
  import opened Sums
  import opened LockCounters
  import opened LogMachine

  predicate Reading(pc: Pc)
  {
    pc.ReadAllocate? || pc.ReadMeasure? || pc.ReadCopy? || pc.ReadResult? || pc.ReadLeave?
  }

  predicate Writing(pc: Pc)
  {
    pc.WriteTest? || pc.WriteMove? || pc.WriteCopy? || pc.WriteTerminate? || pc.WriteLeave?
  }

  predicate HoldsMutex(pc: Pc)
  {
    pc.ReadGate? || pc.WriteGate? || Writing(pc)
  }

  predicate WaitingToWrite(pc: Pc)
  {
    pc.WriteGate? || pc.WriteAsleep? || pc.WriteWoken?
  }

  predicate InGetLog(pc: Pc)
  {
    pc.ReadGate? || pc.ReadAsleep? || pc.ReadWoken? || Reading(pc)
  }

  function ReadingBit(th: Thread): int { Bit(Reading(th.pc)) }
  function WritingBit(th: Thread): int { Bit(Writing(th.pc)) }
  function WriterAsleepBit(th: Thread): int { Bit(th.pc.WriteAsleep?) }
  function WriterComingBit(th: Thread): int { Bit(th.pc.WriteGate? || th.pc.WriteWoken?) }
  function ReaderAsleepBit(th: Thread): int { Bit(th.pc.ReadAsleep?) }

  /** How many threads are where. */
  datatype Tally = Tally(reading: int, writing: int, writersAsleep: int, writersComing: int, readersAsleep: int)

  function TallyOf(ts: seq<Thread>): Tally
  {
    Tally(Sum(ts, ReadingBit), Sum(ts, WritingBit), Sum(ts, WriterAsleepBit), Sum(ts, WriterComingBit),
          Sum(ts, ReaderAsleepBit))
  }

  function Plus(a: Tally, b: Tally): Tally
  {
    Tally(a.reading + b.reading, a.writing + b.writing, a.writersAsleep + b.writersAsleep,
          a.writersComing + b.writersComing, a.readersAsleep + b.readersAsleep)
  }

  function One(th: Thread): Tally
  {
    Tally(ReadingBit(th), WritingBit(th), WriterAsleepBit(th), WriterComingBit(th), ReaderAsleepBit(th))
  }

  ghost predicate OwnsExactly(ts: seq<Thread>, m: Mutex)
  {
    && (m.Held? ==> m.owner < |ts|)
    && forall t: nat | t < |ts| :: HoldsMutex(ts[t].pc) <==> m == Held(t)
  }

  predicate CallMatches(th: Thread)
  {
    && (InGetLog(th.pc) ==> th.todo != [] && th.todo[0] == GetLog)
    && (WaitingToWrite(th.pc) || Writing(th.pc) ==> th.todo != [] && th.todo[0].AddToLog? && th.todo[0].data != "")
  }

  /** The counters are exact; a writer inside excludes readers; and whoever sleeps has somebody
      that will wake it. */
  predicate CountersAgree(c: Counters, k: Tally)
  {
    && c.readers == k.reading
    && c.writers == k.writing <= 1
    && c.waitingWriters == k.writersAsleep + k.writersComing
    && (c.writers > 0 ==> c.readers == 0)
    && (k.writersAsleep > 0 ==> k.reading + k.writing + k.writersComing > 0)
    && (k.readersAsleep > 0 ==> c.waitingWriters + c.writers > 0)
    && k.reading >= 0 && k.writing >= 0 && k.writersAsleep >= 0 && k.writersComing >= 0 && k.readersAsleep >= 0
  }

  ghost predicate Control(s: State)
  {
    && OwnsExactly(s.threads, s.mutex)
    && CountersAgree(s.counters, TallyOf(s.threads))
    && forall t | 0 <= t < |s.threads| :: CallMatches(s.threads[t])
  }

  // ---------------------------------------------------------------- tallies under updates

  lemma TallyUpdate(ts: seq<Thread>, t: nat, th: Thread)
    requires t < |ts|
    ensures Plus(TallyOf(ts[t := th]), One(ts[t])) == Plus(TallyOf(ts), One(th))
  {
    SumUpdate(ts, t, th, ReadingBit);
    SumUpdate(ts, t, th, WritingBit);
    SumUpdate(ts, t, th, WriterAsleepBit);
    SumUpdate(ts, t, th, WriterComingBit);
    SumUpdate(ts, t, th, ReaderAsleepBit);
  }

  lemma TallyNonNegative(ts: seq<Thread>)
    ensures var k := TallyOf(ts);
            k.reading >= 0 && k.writing >= 0 && k.writersAsleep >= 0 && k.writersComing >= 0 && k.readersAsleep >= 0
  {
    SumNonNegative(ts, ReadingBit);
    SumNonNegative(ts, WritingBit);
    SumNonNegative(ts, WriterAsleepBit);
    SumNonNegative(ts, WriterComingBit);
    SumNonNegative(ts, ReaderAsleepBit);
  }

  function WriterOutsideBit(th: Thread): int { Bit(th.pc.WriteAsleep? || th.pc.WriteGate? || th.pc.WriteWoken?) }

  lemma OutsideIsAsleepOrComing(ts: seq<Thread>)
    ensures Sum(ts, WriterOutsideBit) == TallyOf(ts).writersAsleep + TallyOf(ts).writersComing
  {
    SumOfSums(ts, WriterOutsideBit, WriterAsleepBit, WriterComingBit);
  }

  /** Waking threads moves them between the asleep and the coming class and nowhere else. */
  lemma TallyWake(ts: seq<Thread>, wake: set<nat>)
    ensures var k, k' := TallyOf(ts), TallyOf(WakeAll(ts, wake));
            && k'.reading == k.reading && k'.writing == k.writing
            && k'.writersAsleep + k'.writersComing == k.writersAsleep + k.writersComing
            && k'.writersAsleep <= k.writersAsleep && k'.readersAsleep <= k.readersAsleep
  {
    WakeKeepsBits(ts, wake);
    OutsideIsAsleepOrComing(ts);
    OutsideIsAsleepOrComing(WakeAll(ts, wake));
  }

  lemma WakeKeepsBits(ts: seq<Thread>, wake: set<nat>)
    ensures Sum(WakeAll(ts, wake), ReadingBit) == Sum(ts, ReadingBit)
    ensures Sum(WakeAll(ts, wake), WritingBit) == Sum(ts, WritingBit)
    ensures Sum(WakeAll(ts, wake), WriterOutsideBit) == Sum(ts, WriterOutsideBit)
    ensures Sum(WakeAll(ts, wake), WriterAsleepBit) <= Sum(ts, WriterAsleepBit)
    ensures Sum(WakeAll(ts, wake), ReaderAsleepBit) <= Sum(ts, ReaderAsleepBit)
  {
    var ts' := WakeAll(ts, wake);
    assert Sum(ts', ReadingBit) == Sum(ts, ReadingBit) by { SumSame(ts, ts', ReadingBit); }
    assert Sum(ts', WritingBit) == Sum(ts, WritingBit) by { SumSame(ts, ts', WritingBit); }
    assert Sum(ts', WriterOutsideBit) == Sum(ts, WriterOutsideBit) by { SumSame(ts, ts', WriterOutsideBit); }
    assert Sum(ts', WriterAsleepBit) <= Sum(ts, WriterAsleepBit) by { SumMonotone(ts', ts, WriterAsleepBit); }
    assert Sum(ts', ReaderAsleepBit) <= Sum(ts, ReaderAsleepBit) by { SumMonotone(ts', ts, ReaderAsleepBit); }
  }

  /** A signal sent while a writer sleeps makes at least one writer come. */
  lemma SignalReaches(ts: seq<Thread>, wake: set<nat>)
    requires ValidWake(ts, SignalWriter, wake)
    ensures TallyOf(WakeAll(ts, wake)).writersAsleep > 0 ==> TallyOf(WakeAll(ts, wake)).writersComing > 0
  {
    var ts' := WakeAll(ts, wake);
    TallyNonNegative(ts');
    if Sum(ts', WriterAsleepBit) > 0 {
      var i := SumWitness(ts', WriterAsleepBit);
      assert i in Sleepers(ts, WriteAsleep);
      var j :| j in wake;
      assert ts[j].pc == WriteAsleep;
      SumAtLeast(ts', WriterComingBit, j);
    }
  }

  lemma BroadcastReaches(ts: seq<Thread>, wake: set<nat>)
    requires ValidWake(ts, BroadcastReaders, wake)
    ensures TallyOf(WakeAll(ts, wake)).readersAsleep == 0
  {
    var ts' := WakeAll(ts, wake);
    forall j | 0 <= j < |ts'| ensures ReaderAsleepBit(ts'[j]) == 0 {
      if ts[j].pc == ReadAsleep {
        assert j in Sleepers(ts, ReadAsleep);
      }
    }
    SumZero(ts', ReaderAsleepBit);
  }

  /** With the mutex free, or held by a thread that is not writing, nobody is writing. */
  lemma NobodyWrites(ts: seq<Thread>, m: Mutex)
    requires OwnsExactly(ts, m)
    requires m.Held? ==> !Writing(ts[m.owner].pc)
    ensures TallyOf(ts).writing == 0
  {
    forall j: nat | j < |ts| ensures WritingBit(ts[j]) == 0 {
      assert HoldsMutex(ts[j].pc) <==> m == Held(j);
    }
    SumZero(ts, WritingBit);
  }

  // ---------------------------------------------------------------- preservation

  lemma IdleTally(ts: seq<Thread>)
    requires forall t | 0 <= t < |ts| :: ts[t].pc == Idle
    ensures TallyOf(ts) == Tally(0, 0, 0, 0, 0)
  {
    SumZero(ts, ReadingBit);
    SumZero(ts, WritingBit);
    SumZero(ts, WriterAsleepBit);
    SumZero(ts, WriterComingBit);
    SumZero(ts, ReaderAsleepBit);
  }

  lemma IdleThreadsAgree(ts: seq<Thread>)
    requires forall t | 0 <= t < |ts| :: ts[t].pc == Idle
    ensures OwnsExactly(ts, Free) && CountersAgree(CREATED, TallyOf(ts))
    ensures forall t | 0 <= t < |ts| :: CallMatches(ts[t])
  {
    IdleTally(ts);
  }

  lemma InitControl(s: State)
    requires Init(s)
    ensures Control(s)
  {
    IdleThreadsAgree(s.threads);
  }

  /** Steps that wake nobody: everything but the two leaving steps. */
  predicate Quiet(s: State, a: Action)
  {
    Enabled(s, a) && (a.Spurious? || !(s.threads[a.t].pc.ReadLeave? || s.threads[a.t].pc.WriteLeave?))
  }

  lemma QuietStepKeepsControl(s: State, a: Action)
    requires Control(s) && Quiet(s, a)
    ensures Control(Apply(s, a))
  {
    QuietStepMovesOneThread(s, a);
    QuietStepKeepsOwner(s, a);
    QuietStepKeepsCounters(s, a);
  }

  lemma QuietStepMovesOneThread(s: State, a: Action)
    requires Quiet(s, a)
    ensures var s' := Apply(s, a);
            |s'.threads| == |s.threads| && s'.threads == s.threads[a.t := s'.threads[a.t]]
  {
  }

  /** The mutex changes hands only to or from the thread that moves. */
  lemma QuietStepMovesMutex(s: State, a: Action)
    requires Quiet(s, a) && CallMatches(s.threads[a.t])
    requires HoldsMutex(s.threads[a.t].pc) <==> s.mutex == Held(a.t)
    ensures var s' := Apply(s, a);
            && |s'.threads| == |s.threads|
            && (HoldsMutex(s'.threads[a.t].pc) <==> s'.mutex == Held(a.t))
            && (s'.mutex != s.mutex ==> s.mutex in {Free, Held(a.t)} && s'.mutex in {Free, Held(a.t)})
  {
  }

  lemma QuietStepKeepsCall(s: State, a: Action)
    requires Quiet(s, a) && CallMatches(s.threads[a.t])
    ensures |Apply(s, a).threads| == |s.threads| && CallMatches(Apply(s, a).threads[a.t])
  {
    if s.threads[a.t].pc == Idle {
      StartMatches(s, a.t);
    } else {
      StaysInCall(s, a);
    }
  }

  lemma StartMatches(s: State, t: nat)
    requires t < |s.threads| && s.threads[t].pc == Idle && s.threads[t].todo != []
    ensures |StartCall(s, t).threads| == |s.threads| && CallMatches(StartCall(s, t).threads[t])
  {
  }

  /** Inside a call a thread stays in that call. */
  lemma StaysInCall(s: State, a: Action)
    requires Quiet(s, a) && s.threads[a.t].pc != Idle
    ensures var th, s' := s.threads[a.t], Apply(s, a);
            && |s'.threads| == |s.threads| && s'.threads[a.t].todo == th.todo
            && (InGetLog(s'.threads[a.t].pc) <==> InGetLog(th.pc))
            && (WaitingToWrite(s'.threads[a.t].pc) || Writing(s'.threads[a.t].pc)
                <==> WaitingToWrite(th.pc) || Writing(th.pc))
  {
  }

  lemma QuietStepKeepsOwner(s: State, a: Action)
    requires Control(s) && Quiet(s, a)
    requires var s' := Apply(s, a);
             |s'.threads| == |s.threads| && s'.threads == s.threads[a.t := s'.threads[a.t]]
    ensures OwnsExactly(Apply(s, a).threads, Apply(s, a).mutex)
    ensures forall t | 0 <= t < |s.threads| :: CallMatches(Apply(s, a).threads[t])
  {
    QuietStepMovesMutex(s, a);
    QuietStepKeepsCall(s, a);
    var s' := Apply(s, a);
    forall t: nat | t < |s.threads| ensures HoldsMutex(s'.threads[t].pc) <==> s'.mutex == Held(t) {
      assert HoldsMutex(s.threads[t].pc) <==> s.mutex == Held(t);
    }
  }

  lemma QuietStepKeepsCounters(s: State, a: Action)
    requires Control(s) && Quiet(s, a)
    requires var s' := Apply(s, a);
             |s'.threads| == |s.threads| && s'.threads == s.threads[a.t := s'.threads[a.t]]
    ensures CountersAgree(Apply(s, a).counters, TallyOf(Apply(s, a).threads))
  {
    var th, th' := s.threads[a.t], Apply(s, a).threads[a.t];
    TallyUpdate(s.threads, a.t, th');
    TallyNonNegative(Apply(s, a).threads);
    assert th.pc == WriteGate ==> TallyOf(s.threads).writing == 0 by {
      if th.pc == WriteGate {
        assert HoldsMutex(th.pc) <==> s.mutex == Held(a.t);
        NobodyWrites(s.threads, s.mutex);
      }
    }
    QuietArithmetic(s, a, TallyOf(s.threads), TallyOf(Apply(s, a).threads));
  }

  lemma QuietArithmetic(s: State, a: Action, k: Tally, k': Tally)
    requires Quiet(s, a) && CountersAgree(s.counters, k)
    requires s.threads[a.t].pc == WriteGate ==> k.writing == 0
    requires Plus(k', One(s.threads[a.t])) == Plus(k, One(Apply(s, a).threads[a.t]))
    requires k'.reading >= 0 && k'.writing >= 0
    requires k'.writersAsleep >= 0 && k'.writersComing >= 0 && k'.readersAsleep >= 0
    ensures CountersAgree(Apply(s, a).counters, k')
  {
    if a.Run? && s.threads[a.t].pc in {Idle, ReadGate, WriteGate} {
      GateArithmetic(s, a.t, Apply(s, a), k, k');
    } else {
      BodyArithmetic(s, a, k, k');
    }
  }

  /** Steps that register or admit. */
  lemma GateArithmetic(s: State, t: nat, s': State, k: Tally, k': Tally)
    requires t < |s.threads| == |s'.threads| && CountersAgree(s.counters, k)
    requires s.threads[t].pc in {Idle, ReadGate, WriteGate} && Ready(s, t) && s' == StepOf(s, t, {}, "")
    requires s.threads[t].pc == WriteGate ==> k.writing == 0
    requires Plus(k', One(s.threads[t])) == Plus(k, One(s'.threads[t]))
    requires k'.reading >= 0 && k'.writing >= 0
    requires k'.writersAsleep >= 0 && k'.writersComing >= 0 && k'.readersAsleep >= 0
    ensures CountersAgree(s'.counters, k')
  {
  }

  /** All other steps leave the counters, and the classes that they count, alone. */
  lemma BodyArithmetic(s: State, a: Action, k: Tally, k': Tally)
    requires Quiet(s, a) && CountersAgree(s.counters, k)
    requires a.Run? ==> s.threads[a.t].pc !in {Idle, ReadGate, WriteGate}
    requires Plus(k', One(s.threads[a.t])) == Plus(k, One(Apply(s, a).threads[a.t]))
    requires k'.reading >= 0 && k'.writing >= 0
    requires k'.writersAsleep >= 0 && k'.writersComing >= 0 && k'.readersAsleep >= 0
    ensures CountersAgree(Apply(s, a).counters, k')
  {
    BodyKeepsClass(s, a);
  }

  lemma BodyKeepsClass(s: State, a: Action)
    requires Quiet(s, a) && (a.Run? ==> s.threads[a.t].pc !in {Idle, ReadGate, WriteGate})
    ensures var th, th', s' := s.threads[a.t], Apply(s, a).threads[a.t], Apply(s, a);
            && s'.counters == s.counters && ReadingBit(th') == ReadingBit(th) && WritingBit(th') == WritingBit(th)
            && WriterOutsideBit(th') == WriterOutsideBit(th)
            && WriterAsleepBit(th') <= WriterAsleepBit(th) && ReaderAsleepBit(th') <= ReaderAsleepBit(th)
  {
  }

  lemma LeavingThread(s: State, t: nat, pc: Pc) returns (ts: seq<Thread>)
    requires Control(s) && t < |s.threads| && s.threads[t].pc == pc && (pc.ReadLeave? || pc.WriteLeave?)
    ensures s.threads[t].todo != [] && ts == Return(s, t).threads
    ensures Plus(TallyOf(ts), One(s.threads[t])) == Plus(TallyOf(s.threads), One(ts[t]))
  {
    assert CallMatches(s.threads[t]);
    ts := Return(s, t).threads;
    TallyUpdate(s.threads, t, ts[t]);
  }

  lemma SleepersAfterReturn(s: State, t: nat, pc: Pc)
    requires t < |s.threads| && s.threads[t].todo != [] && s.threads[t].pc != pc && pc != Idle
    ensures Sleepers(Return(s, t).threads, pc) == Sleepers(s.threads, pc)
  {
  }

  /** After the leaving thread has returned, the woken threads only change class. */
  lemma LeaveKeepsOwner(s: State, t: nat, wake: set<nat>, m: Mutex)
    requires Control(s) && t < |s.threads| && (s.threads[t].pc.ReadLeave? || s.threads[t].pc.WriteLeave?)
    requires m == Free && (s.threads[t].pc.ReadLeave? ==> s.mutex == Free)
    requires s.threads[t].todo != []
    ensures OwnsExactly(WakeAll(Return(s, t).threads, wake), m)
    ensures forall i | 0 <= i < |s.threads| :: CallMatches(WakeAll(Return(s, t).threads, wake)[i])
  {
    var ts := Return(s, t).threads;
    assert HoldsMutex(s.threads[t].pc) <==> s.mutex == Held(t);
    forall i: nat | i < |s.threads| ensures !HoldsMutex(ts[i].pc) && CallMatches(ts[i]) {
      assert HoldsMutex(s.threads[i].pc) <==> s.mutex == Held(i);
      assert CallMatches(s.threads[i]);
    }
    WakingKeepsOwner(ts, wake);
  }

  lemma WakingKeepsOwner(ts: seq<Thread>, wake: set<nat>)
    requires forall i: nat | i < |ts| :: !HoldsMutex(ts[i].pc) && CallMatches(ts[i])
    ensures OwnsExactly(WakeAll(ts, wake), Free)
    ensures forall i | 0 <= i < |ts| :: CallMatches(WakeAll(ts, wake)[i])
  {
  }

  lemma LeaveReadKeepsControl(s: State, a: Action)
    requires Control(s) && Enabled(s, a) && a.Run? && s.threads[a.t].pc.ReadLeave?
    ensures Control(Apply(s, a))
  {
    var t := a.t;
    var ts := LeavingThread(s, t, s.threads[t].pc);
    LeaveKeepsOwner(s, t, a.wake, Free);
    assert Apply(s, a).threads == WakeAll(ts, a.wake);
    LeaveReadKeepsCounters(s, t, a.wake, ts);
  }

  lemma LeaveReadKeepsCounters(s: State, t: nat, wake: set<nat>, ts: seq<Thread>)
    requires Control(s) && s.mutex == Free && t < |s.threads| && s.threads[t].pc.ReadLeave?
    requires s.threads[t].todo != [] && ts == Return(s, t).threads
    requires Plus(TallyOf(ts), One(s.threads[t])) == Plus(TallyOf(s.threads), One(ts[t]))
    requires ValidWake(s.threads, WakeupAfterRead(s.counters), wake)
    ensures CountersAgree(RetireReader(s.counters), TallyOf(WakeAll(ts, wake)))
  {
    SleepersAfterReturn(s, t, WriteAsleep);
    NobodyWrites(s.threads, s.mutex);
    TallyWake(ts, wake);
    TallyNonNegative(WakeAll(ts, wake));
    if WakeupAfterRead(s.counters) == SignalWriter {
      SignalReaches(ts, wake);
    } else {
      assert WakeAll(ts, {}) == ts;
    }
  }

  lemma LeaveWriteKeepsControl(s: State, a: Action)
    requires Control(s) && Enabled(s, a) && a.Run? && s.threads[a.t].pc.WriteLeave?
    ensures Control(Apply(s, a))
  {
    var t := a.t;
    var ts := LeavingThread(s, t, WriteLeave);
    LeaveKeepsOwner(s, t, a.wake, Free);
    assert Apply(s, a).threads == WakeAll(ts, a.wake);
    LeaveWriteKeepsCounters(s, t, a.wake, ts);
  }

  lemma LeaveWriteKeepsCounters(s: State, t: nat, wake: set<nat>, ts: seq<Thread>)
    requires Control(s) && t < |s.threads| && s.threads[t].pc.WriteLeave?
    requires s.threads[t].todo != [] && ts == Return(s, t).threads
    requires Plus(TallyOf(ts), One(s.threads[t])) == Plus(TallyOf(s.threads), One(ts[t]))
    requires ValidWake(s.threads, WakeupAfterWrite(s.counters), wake)
    ensures CountersAgree(RetireWriter(s.counters), TallyOf(WakeAll(ts, wake)))
  {
    SleepersAfterReturn(s, t, WriteAsleep);
    SleepersAfterReturn(s, t, ReadAsleep);
    TallyWake(ts, wake);
    TallyNonNegative(WakeAll(ts, wake));
    TallyNonNegative(ts);
    if s.counters.waitingWriters > 0 {
      SignalReaches(ts, wake);
    } else {
      BroadcastReaches(ts, wake);
    }
  }

  lemma StepKeepsControl(s: State, a: Action)
    requires Control(s) && Enabled(s, a)
    ensures Control(Apply(s, a))
  {
    if a.Run? && s.threads[a.t].pc.ReadLeave? {
      LeaveReadKeepsControl(s, a);
    } else if a.Run? && s.threads[a.t].pc.WriteLeave? {
      LeaveWriteKeepsControl(s, a);
    } else {
      QuietStepKeepsControl(s, a);
    }
  }
}
