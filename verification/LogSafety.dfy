/** What the log's lock guarantees in every reachable state and over every finite run. */
module LogSafety {
  import opened Sums
  import opened Runs
  import opened LockCounters
  import opened Memory
  import opened LogMachine
  import opened LogControl
  import opened LogData

  ghost predicate Inv(s: State)
  {
    Control(s) && Data(s)
  }

  lemma InitInv(s: State)
    requires Init(s)
    ensures Inv(s)
  {
    InitControl(s);
    InitData(s);
  }

  lemma StepKeepsInv(s: State, a: Action)
    requires Inv(s) && Enabled(s, a)
    ensures Inv(Apply(s, a))
  {
    StepKeepsControl(s, a);
    StepKeepsData(s, a);
  }

  lemma NextKeepsInv(s: State, s': State)
    requires Inv(s) && Next(s, s')
    ensures Inv(s')
  {
    var a :| Enabled(s, a) && s' == Apply(s, a);
    StepKeepsInv(s, a);
  }

  /** Every state of every run satisfies the control and data invariants. */
  lemma ReachableInv(run: seq<State>, i: nat)
    requires FiniteRun(run, Init, Next) && i < |run|
    ensures Inv(run[i])
  {
    forall s | Init(s) ensures Inv(s) { InitInv(s); }
    forall s, s' | Inv(s) && Next(s, s') ensures Inv(s') { NextKeepsInv(s, s'); }
    InvariantOnRun(run, Init, Next, Inv, i);
  }

  lemma ActionAt(run: seq<State>, i: nat) returns (a: Action)
    requires FiniteRun(run, Init, Next) && 0 < i < |run|
    ensures Enabled(run[i - 1], a) && run[i] == Apply(run[i - 1], a)
  {
    assert StepsAt(run, Next, i);
    a :| Enabled(run[i - 1], a) && run[i] == Apply(run[i - 1], a);
  }

  // ---------------------------------------------------------------- exclusion and wakeups

  /** A thread inside an append holds the mutex and excludes every reader and every other writer. */
  lemma WriterExcludesAll(run: seq<State>, i: nat, t: nat)
    requires FiniteRun(run, Init, Next) && i < |run| && t < |run[i].threads|
    requires Writing(run[i].threads[t].pc)
    ensures run[i].mutex == Held(t) && run[i].counters.readers == 0
    ensures forall u: nat | u < |run[i].threads| && u != t ::
              !Reading(run[i].threads[u].pc) && !Writing(run[i].threads[u].pc)
  {
    ReachableInv(run, i);
    WriterIsAlone(run[i], t);
  }

  /** With the mutex free the counters count exactly the readers inside and the writers outside. */
  lemma CountersWithMutexFree(run: seq<State>, i: nat)
    requires FiniteRun(run, Init, Next) && i < |run| && run[i].mutex == Free
    ensures run[i].counters.writers == 0
    ensures run[i].counters.readers == Sum(run[i].threads, ReadingBit)
    ensures run[i].counters.waitingWriters == Sum(run[i].threads, WriterOutsideBit)
    ensures forall t: nat | t < |run[i].threads| :: !run[i].threads[t].pc.WriteGate? && !Writing(run[i].threads[t].pc)
  {
    ReachableInv(run, i);
    NobodyWrites(run[i].threads, Free);
    OutsideIsAsleepOrComing(run[i].threads);
    forall t: nat | t < |run[i].threads| ensures !HoldsMutex(run[i].threads[t].pc) {}
  }

  /** Whoever is asleep has a thread that is bound to wake it. */
  lemma NoLostWakeup(run: seq<State>, i: nat, t: nat) returns (u: nat)
    requires FiniteRun(run, Init, Next) && i < |run| && t < |run[i].threads|
    requires run[i].threads[t].pc in {ReadAsleep, WriteAsleep}
    ensures u < |run[i].threads|
    ensures run[i].threads[t].pc == WriteAsleep ==>
              var pc := run[i].threads[u].pc; Reading(pc) || Writing(pc) || pc.WriteWoken? || pc.WriteGate?
    ensures run[i].threads[t].pc == ReadAsleep ==>
              WaitingToWrite(run[i].threads[u].pc) || Writing(run[i].threads[u].pc)
  {
    ReachableInv(run, i);
    u := SleeperHasHelper(run[i], t);
  }

  lemma SleeperHasHelper(s: State, t: nat) returns (u: nat)
    requires Control(s) && t < |s.threads| && s.threads[t].pc in {ReadAsleep, WriteAsleep}
    ensures u < |s.threads|
    ensures s.threads[t].pc == WriteAsleep ==>
              var pc := s.threads[u].pc; Reading(pc) || Writing(pc) || pc.WriteWoken? || pc.WriteGate?
    ensures s.threads[t].pc == ReadAsleep ==> WaitingToWrite(s.threads[u].pc) || Writing(s.threads[u].pc)
  {
    var ts, k := s.threads, TallyOf(s.threads);
    if ts[t].pc == WriteAsleep {
      SumAtLeast(ts, WriterAsleepBit, t);
      if k.reading > 0 {
        u := SumWitness(ts, ReadingBit);
      } else if k.writing > 0 {
        u := SumWitness(ts, WritingBit);
      } else {
        u := SumWitness(ts, WriterComingBit);
      }
    } else {
      SumAtLeast(ts, ReaderAsleepBit, t);
      if k.writersAsleep > 0 {
        u := SumWitness(ts, WriterAsleepBit);
      } else if k.writersComing > 0 {
        u := SumWitness(ts, WriterComingBit);
      } else {
        u := SumWitness(ts, WritingBit);
      }
    }
  }

  /** One step of the system without the tests `writers > 0` at the two gates. */
  function LeanStep(s: State, a: Action): State
    requires Enabled(s, a)
  {
    if a.Run? && s.threads[a.t].pc.ReadGate? then
      if s.counters.waitingWriters > 0 then Goto(s, a.t, ReadAsleep).(mutex := Free)
      else Goto(s, a.t, ReadAllocate(|s.history|)).(mutex := Free, counters := AdmitReader(s.counters))
    else if a.Run? && s.threads[a.t].pc.WriteGate? then
      if s.counters.readers > 0 then Goto(s, a.t, WriteAsleep).(mutex := Free)
      else Goto(s, a.t, WriteTest).(counters := AdmitWriter(s.counters))
    else Apply(s, a)
  }

  ghost predicate LeanNext(s: State, s': State)
  {
    exists a :: Enabled(s, a) && s' == LeanStep(s, a)
  }

  lemma LeanStepIsStep(s: State, a: Action)
    requires Inv(s) && Enabled(s, a)
    ensures LeanStep(s, a) == Apply(s, a)
  {
    if s.threads[a.t].pc in {ReadGate, WriteGate} {
      GateIsQuiet(s, a.t);
    }
  }

  lemma LeanNextIsNext(s: State, s': State)
    requires Inv(s)
    ensures LeanNext(s, s') <==> Next(s, s')
  {
    forall a | Enabled(s, a) ensures LeanStep(s, a) == Apply(s, a) {
      LeanStepIsStep(s, a);
    }
  }

  /** The system without the tests `writers > 0` has exactly the same runs. */
  lemma WritersTestIsRedundant(run: seq<State>)
    ensures FiniteRun(run, Init, LeanNext) <==> FiniteRun(run, Init, Next)
  {
    forall s | Init(s) ensures Inv(s) { InitInv(s); }
    forall s, s' | Inv(s) ensures LeanNext(s, s') <==> Next(s, s') { LeanNextIsNext(s, s'); }
    forall s, s' | Inv(s) && Next(s, s') ensures Inv(s') { NextKeepsInv(s, s'); }
    if FiniteRun(run, Init, LeanNext) {
      forall i | 0 < i < |run| ensures StepsAt(run, Next, i) {
        InvariantOnRun(run, Init, LeanNext, Inv, i - 1);
        assert StepsAt(run, LeanNext, i);
      }
    }
    if FiniteRun(run, Init, Next) {
      forall i | 0 < i < |run| ensures StepsAt(run, LeanNext, i) {
        InvariantOnRun(run, Init, Next, Inv, i - 1);
        assert StepsAt(run, Next, i);
      }
    }
  }

  // ---------------------------------------------------------------- writer priority

  ghost predicate Admitted(s: State, s': State, u: nat)
  {
    u < |s.threads| && u < |s'.threads| && !Reading(s.threads[u].pc) && Reading(s'.threads[u].pc)
  }

  /** Step `k` of the run admits thread `u` as a reader. */
  ghost predicate AdmittedIn(run: seq<State>, k: nat, u: nat)
  {
    0 < k < |run| && Admitted(run[k - 1], run[k], u)
  }

  /** With a writer waiting the thread that moves does not pass the readers' gate. */
  lemma GateIsShut(s: State, a: Action)
    requires Enabled(s, a) && s.counters.waitingWriters > 0 && CallMatches(s.threads[a.t])
    ensures Apply(s, a).counters.readers <= s.counters.readers
    ensures !Admitted(s, Apply(s, a), a.t)
  {
  }

  lemma WaitingWriterBlocksReaders(s: State, a: Action, t: nat)
    requires Control(s) && Enabled(s, a) && t < |s.threads| && WaitingToWrite(s.threads[t].pc)
    ensures Apply(s, a).counters.readers <= s.counters.readers
    ensures forall u: nat :: !Admitted(s, Apply(s, a), u)
  {
    OutsideIsAsleepOrComing(s.threads);
    SumAtLeast(s.threads, WriterOutsideBit, t);
    assert CallMatches(s.threads[a.t]);
    GateIsShut(s, a);
    forall u: nat ensures !Admitted(s, Apply(s, a), u) {
      if u < |s.threads| && u != a.t {
        OthersAreUntouched(s, a, u);
      }
    }
  }

  /** Thread `t` has registered in `waiting_writers` and is not inside yet. */
  ghost predicate Registered(run: seq<State>, k: nat, t: nat)
  {
    k < |run| && t < |run[k].threads| && WaitingToWrite(run[k].threads[t].pc)
  }

  /** At step `j`, if thread `t` was registered before it, nobody is admitted and readers does not rise. */
  ghost predicate PriorityAt(run: seq<State>, j: nat, t: nat)
  {
    0 < j < |run| && Registered(run, j - 1, t) ==>
      && run[j].counters.readers <= run[j - 1].counters.readers
      && forall u: nat :: !AdmittedIn(run, j, u)
  }

  lemma StepHasPriority(run: seq<State>, j: nat, t: nat)
    requires FiniteRun(run, Init, Next) && 0 < j < |run|
    ensures PriorityAt(run, j, t)
  {
    if Registered(run, j - 1, t) {
      ReachableInv(run, j - 1);
      var a := ActionAt(run, j);
      WaitingWriterBlocksReaders(run[j - 1], a, t);
    }
  }

  /** What holds at each step holds over a stretch of steps. */
  lemma {:induction false} PriorityOverStretch(run: seq<State>, i: nat, j: nat, t: nat)
    requires i <= j < |run| && forall k | i < k <= j :: PriorityAt(run, k, t)
    requires forall k | i <= k <= j :: Registered(run, k, t)
    ensures run[j].counters.readers <= run[i].counters.readers
    ensures forall k, u: nat | i < k <= j :: !AdmittedIn(run, k, u)
    decreases j
  {
    if i < j {
      PriorityOverStretch(run, i, j - 1, t);
      assert PriorityAt(run, j, t) && Registered(run, j - 1, t);
    }
  }

  /** While some writer is registered and not yet inside, over any stretch of a run, no reader is
      admitted and the number of readers never rises. */
  lemma WritersHavePriority(run: seq<State>, i: nat, j: nat, t: nat)
    requires FiniteRun(run, Init, Next) && i <= j < |run|
    requires forall k | i <= k <= j :: Registered(run, k, t)
    ensures run[j].counters.readers <= run[i].counters.readers
    ensures forall k, u: nat | i < k <= j :: !AdmittedIn(run, k, u)
  {
    forall k | i < k <= j ensures PriorityAt(run, k, t) {
      StepHasPriority(run, k, t);
    }
    PriorityOverStretch(run, i, j, t);
  }

  // ---------------------------------------------------------------- linearizable snapshots

  /** At step `j` thread `t` passes the gate of `get_log`. */
  ghost predicate AdmittedAt(run: seq<State>, j: nat, t: nat)
  {
    && 0 < j < |run|
    && t < |run[j - 1].threads| && run[j - 1].threads[t].pc == ReadGate
    && t < |run[j].threads| && run[j].threads[t].pc == ReadAllocate(|run[j].history|)
  }

  ghost predicate ReadingAt(run: seq<State>, k: nat, t: nat)
  {
    k < |run| && t < |run[k].threads| && Reading(run[k].threads[t].pc)
  }

  /** Thread `t`, inside a `get_log`, was inside the same call before, or has just passed the gate. */
  ghost predicate ReaderCameFrom(s: State, s': State, t: nat)
  {
    && t < |s.threads| && t < |s'.threads| && Reading(s'.threads[t].pc)
    && ((s.threads[t].pc == ReadGate && s'.threads[t].pc == ReadAllocate(|s'.history|))
        || (Reading(s.threads[t].pc) && s'.threads[t].pc.seen == s.threads[t].pc.seen))
  }

  /** From `s` to `s'` one call of `get_log` has returned with `x`. */
  ghost predicate Answered(s: State, s': State, x: Snapshot)
  {
    && s'.snapshots == s.snapshots + [x] && s'.history == s.history
    && x.reader < |s.threads| && s.threads[x.reader].pc == ReadLeave(x.seen, x.dst, x.result)
  }

  /** What an observer sees of one step, also when programs are extended between steps of the log. */
  ghost predicate Evolves(s: State, s': State)
  {
    && s.history <= s'.history
    && (forall t: nat | t < |s'.threads| && Reading(s'.threads[t].pc) :: ReaderCameFrom(s, s', t))
    && (s'.snapshots == s.snapshots || exists x :: Answered(s, s', x))
  }

  lemma ReaderStays(s: State, a: Action)
    requires Enabled(s, a) && a.t < |Apply(s, a).threads| && Reading(Apply(s, a).threads[a.t].pc)
    requires Reading(s.threads[a.t].pc)
    ensures Apply(s, a).threads[a.t].pc.seen == s.threads[a.t].pc.seen
  {
  }

  lemma ReaderEnters(s: State, a: Action)
    requires Enabled(s, a) && a.t < |Apply(s, a).threads| && Reading(Apply(s, a).threads[a.t].pc)
    requires !Reading(s.threads[a.t].pc)
    ensures s.threads[a.t].pc == ReadGate && Apply(s, a).threads[a.t].pc == ReadAllocate(|Apply(s, a).history|)
  {
  }

  lemma StepFrame(s: State, a: Action)
    requires Enabled(s, a)
    ensures s.history <= Apply(s, a).history && |Apply(s, a).threads| == |s.threads|
  {
  }

  lemma StepAnswers(s: State, a: Action)
    requires Enabled(s, a)
    ensures Apply(s, a).snapshots == s.snapshots || exists x :: Answered(s, Apply(s, a), x)
  {
    if a.Run? && s.threads[a.t].pc.ReadLeave? {
      var pc := s.threads[a.t].pc;
      assert Answered(s, Apply(s, a), Snapshot(a.t, pc.seen, pc.dst, pc.result));
    }
  }

  lemma StepEvolves(s: State, a: Action)
    requires Enabled(s, a)
    ensures Evolves(s, Apply(s, a))
  {
    var s' := Apply(s, a);
    StepFrame(s, a);
    StepAnswers(s, a);
    forall t: nat | t < |s'.threads| && Reading(s'.threads[t].pc) ensures ReaderCameFrom(s, s', t) {
      if t != a.t {
        OthersAreUntouched(s, a, t);
      } else if Reading(s.threads[t].pc) {
        ReaderStays(s, a);
      } else {
        ReaderEnters(s, a);
      }
    }
  }

  /** Handing a thread one more call, or doing nothing to the log, shows nothing. */
  lemma SubmitEvolves(s: State, t: nat, op: Op)
    requires t < |s.threads|
    ensures Evolves(s, s) && Evolves(s, Submit(s, t, op))
  {
  }

  ghost predicate EvolvesAt(run: seq<State>, i: nat)
    requires 0 < i < |run|
  {
    Evolves(run[i - 1], run[i])
  }

  /** A run as an observer sees it. */
  ghost predicate Observed(run: seq<State>)
  {
    && (forall t: nat :: !ReadingAt(run, 0, t))
    && (forall i: nat | 0 < i < |run| :: EvolvesAt(run, i))
  }

  lemma RunIsObserved(run: seq<State>)
    requires FiniteRun(run, Init, Next)
    ensures Observed(run)
  {
    forall i: nat | 0 < i < |run| ensures EvolvesAt(run, i) {
      var a := ActionAt(run, i);
      StepEvolves(run[i - 1], a);
    }
  }

  lemma {:induction false} ObservedHistoryGrows(run: seq<State>, i: nat, j: nat)
    requires Observed(run) && i <= j < |run|
    ensures run[i].history <= run[j].history
    decreases j
  {
    if i < j {
      ObservedHistoryGrows(run, i, j - 1);
      assert EvolvesAt(run, j);
    }
  }

  lemma HistoryGrows(run: seq<State>, i: nat, j: nat)
    requires FiniteRun(run, Init, Next) && i <= j < |run|
    ensures run[i].history <= run[j].history
  {
    RunIsObserved(run);
    ObservedHistoryGrows(run, i, j);
  }

  lemma {:induction false} ReaderWasAdmitted(run: seq<State>, i: nat, t: nat) returns (j: nat)
    requires Observed(run) && ReadingAt(run, i, t)
    ensures j <= i && AdmittedAt(run, j, t) && run[i].threads[t].pc.seen == |run[j].history|
    ensures forall k | j <= k <= i :: ReadingAt(run, k, t)
  {
    assert i > 0;
    assert EvolvesAt(run, i) && ReaderCameFrom(run[i - 1], run[i], t);
    if AdmittedAt(run, i, t) {
      j := i;
    } else {
      j := ReaderWasAdmitted(run, i - 1, t);
    }
  }

  /** Step `i` adds a snapshot: it is the last step of one call of `get_log`. */
  ghost predicate Answers(run: seq<State>, i: nat)
  {
    0 < i < |run| && |run[i].snapshots| > |run[i - 1].snapshots|
  }

  /** The call that ends at step `i` with `x` passed the gate at step `j`, was inside from then on, and
      returned exactly the concatenation of the entries whose append had finished by step `j`,
      terminated, with its length. */
  ghost predicate Linearized(run: seq<State>, j: nat, i: nat, x: Snapshot)
  {
    && 0 < j < i < |run|
    && run[i].snapshots == run[i - 1].snapshots + [x]
    && AdmittedAt(run, j, x.reader)
    && (forall k | j <= k < i :: ReadingAt(run, k, x.reader))
    && run[i].history == run[j].history
    && x.seen == |run[j].history|
    && x.dst == Text(run[j].history) + [NUL] && x.result == |Text(run[j].history)|
  }

  lemma ObservedCallsAreLinearizable(run: seq<State>, i: nat) returns (j: nat, x: Snapshot)
    requires Observed(run) && Answers(run, i) && Inv(run[i - 1])
    ensures Linearized(run, j, i, x) && Answered(run[i - 1], run[i], x)
  {
    assert EvolvesAt(run, i);
    x :| Answered(run[i - 1], run[i], x);
    j := ReaderWasAdmitted(run, i - 1, x.reader);
    ObservedHistoryGrows(run, j, i - 1);
    LeavingReaderHasAll(run[i - 1], x.reader);
  }

  lemma LeavingReaderHasAll(s: State, t: nat)
    requires Inv(s) && t < |s.threads| && s.threads[t].pc.ReadLeave?
    ensures var ReadLeave(seen, dst, result) := s.threads[t].pc;
            seen == |s.history| && dst == Text(s.history) + [NUL] && result == |Text(s.history)|
  {
    assert ReaderData(s.history, s.usage, s.threads[t].pc);
  }

  /** Linearizability, call by call: each call of `get_log` has a step between its start and its end
      at which it takes effect. */
  lemma SnapshotsAreLinearizable(run: seq<State>, i: nat) returns (j: nat, x: Snapshot)
    requires FiniteRun(run, Init, Next) && Answers(run, i)
    ensures Linearized(run, j, i, x)
  {
    RunIsObserved(run);
    ReachableInv(run, i - 1);
    j, x := ObservedCallsAreLinearizable(run, i);
  }

  /** An append finished before a call of `get_log` passes the gate is in its answer, at its place. */
  lemma ObservedAnswersAreFresh(run: seq<State>, k: nat, j: nat, i: nat, x: Snapshot)
    requires Observed(run) && Linearized(run, j, i, x) && k <= j
    ensures x.result < |x.dst| && Text(run[k].history) <= x.dst[..x.result]
  {
    ObservedHistoryGrows(run, k, j);
    TextPrefix(run[j].history, |run[k].history|);
    assert run[j].history[..|run[k].history|] == run[k].history;
  }

  lemma AnswersAreFresh(run: seq<State>, k: nat, j: nat, i: nat, x: Snapshot)
    requires FiniteRun(run, Init, Next) && Linearized(run, j, i, x) && k <= j
    ensures x.result < |x.dst| && Text(run[k].history) <= x.dst[..x.result]
  {
    RunIsObserved(run);
    ObservedAnswersAreFresh(run, k, j, i, x);
  }

  /** A call that passes the gate after another has returned answers with an extension of its answer. */
  lemma LaterAnswersExtend(run: seq<State>, j: nat, i: nat, x: Snapshot, j': nat, i': nat, x': Snapshot)
    requires FiniteRun(run, Init, Next) && Linearized(run, j, i, x) && Linearized(run, j', i', x') && i <= j'
    ensures x.result < |x.dst| && x'.result < |x'.dst| && x.dst[..x.result] <= x'.dst[..x'.result]
  {
    AnswersAreFresh(run, i, j', i', x');
  }

  /** Inside `get_log` nothing moves: the separate reads of `size` agree, and what has been copied is the
      front of the buffer, within both blocks. */
  lemma ReaderBodyIsConsistent(run: seq<State>, i: nat, t: nat)
    requires FiniteRun(run, Init, Next) && i < |run| && t < |run[i].threads|
    ensures var s := run[i];
            match s.threads[t].pc
            case ReadCopy(seen, room, len, dst) =>
              room == len == s.usage.size + 1 <= |s.buffer| && |dst| <= len && dst == s.buffer[..|dst|]
            case ReadLeave(seen, dst, result) => result == s.usage.size && |dst| == result + 1
            case _ => true
  {
    ReachableInv(run, i);
    assert ReaderData(run[i].history, run[i].usage, run[i].threads[t].pc);
    if Reading(run[i].threads[t].pc) {
      ReaderSeesSettledLog(run[i], t);
      assert run[i].buffer[..run[i].usage.size + 1] == Text(run[i].history) + [NUL];
    }
  }

  /** Of any two snapshots taken in a run, one is a prefix of the other. */
  lemma SnapshotsArePrefixOrdered(run: seq<State>, i: nat, x: Snapshot, y: Snapshot)
    requires FiniteRun(run, Init, Next) && i < |run| && x in run[i].snapshots && y in run[i].snapshots
    requires x.seen <= y.seen
    ensures x.result < |x.dst| && y.result < |y.dst| && x.dst[..x.result] <= y.dst[..y.result]
  {
    ReachableInv(run, i);
    var h := run[i].history;
    assert SnapshotCorrect(h, x) && SnapshotCorrect(h, y);
    TextPrefix(h[..y.seen], x.seen);
    assert h[..y.seen][..x.seen] == h[..x.seen];
  }

  /** When nobody is inside an append, the buffer holds the whole history, terminated, its capacity
      is a bounded doubling of 4096 and reallocation has moved at most twice what is stored. */
  lemma BufferHoldsHistory(run: seq<State>, i: nat)
    requires FiniteRun(run, Init, Next) && i < |run|
    requires forall t: nat | t < |run[i].threads| :: !Writing(run[i].threads[t].pc)
    ensures Holds(run[i].buffer, run[i].usage, Text(run[i].history))
    ensures run[i].usage.moved <= 2 * run[i].usage.size
  {
    ReachableInv(run, i);
    SumZero(run[i].threads, WritingBit);
  }

  // ---------------------------------------------------------------- what reallocation costs

  /** From `s` to `s'` thread `t` copies one byte into a new buffer. */
  ghost predicate MovesByte(s: State, s': State, t: nat)
  {
    && t < |s.threads| && t < |s'.threads| && s.threads[t].pc.WriteMove? && s'.threads[t].pc.WriteMove?
    && var WriteMove(block, moved) := s.threads[t].pc;
       && moved < |block| && moved < |s.buffer|
       && s'.threads[t].pc == WriteMove(block[moved := s.buffer[moved]], moved + 1)
  }

  ghost predicate CopiesByte(s: State, s': State)
  {
    exists t: nat :: MovesByte(s, s', t)
  }

  /** How many of the first `i` steps copy a byte into a new buffer. */
  ghost function BytesMoved(run: seq<State>, i: nat): nat
    requires i < |run|
  {
    if i == 0 then 0
    else BytesMoved(run, i - 1) + if CopiesByte(run[i - 1], run[i]) then 1 else 0
  }

  function MovedSoFar(th: Thread): int
  {
    if th.pc.WriteMove? then th.pc.moved else 0
  }

  lemma {:induction false} NobodyMoves(ts: seq<Thread>)
    requires forall t | 0 <= t < |ts| :: ts[t].pc == Idle
    ensures Sum(ts, MovedSoFar) == 0
  {
    SumZero(ts, MovedSoFar);
  }

  /** A step copies a byte, or hands the bytes copied over to the account, or leaves both alone. */
  lemma StepMovesByte(s: State, a: Action)
    requires Inv(s) && Enabled(s, a)
    ensures var s' := Apply(s, a);
            s'.usage.moved + Sum(s'.threads, MovedSoFar)
              == s.usage.moved + Sum(s.threads, MovedSoFar) + if CopiesByte(s, s') then 1 else 0
  {
    var s' := Apply(s, a);
    if a.Run? && s.threads[a.t].pc.WriteMove? {
      MoverPays(s, a);
      SumUpdate(s.threads, a.t, s'.threads[a.t], MovedSoFar);
    } else {
      NobodyElseMoves(s, a);
      SumSame(s.threads, s'.threads, MovedSoFar);
    }
  }

  lemma MoverPays(s: State, a: Action)
    requires Inv(s) && Enabled(s, a) && a.Run? && s.threads[a.t].pc.WriteMove?
    ensures var s', t := Apply(s, a), a.t;
            && |s'.threads| == |s.threads| && s'.threads == s.threads[t := s'.threads[t]]
            && s'.usage.moved + MovedSoFar(s'.threads[t])
                 == s.usage.moved + MovedSoFar(s.threads[t]) + if CopiesByte(s, s') then 1 else 0
  {
    var t := a.t;
    assert Apply(s, a) == MoveByte(s, t);
    assert WriterData(s.buffer, s.usage, Text(s.history), DataOf(s, t), s.threads[t].pc);
    if s.threads[t].pc.moved < s.usage.size {
      assert MovesByte(s, MoveByte(s, t), t);
    } else {
      WriterIsAlone(s, t);
    }
  }

  lemma NobodyElseMoves(s: State, a: Action)
    requires Control(s) && Enabled(s, a) && !(a.Run? && s.threads[a.t].pc.WriteMove?)
    ensures var s' := Apply(s, a);
            && |s'.threads| == |s.threads| && s'.usage.moved == s.usage.moved
            && (forall u: nat | u < |s.threads| :: MovedSoFar(s'.threads[u]) == MovedSoFar(s.threads[u]))
            && (forall u: nat :: !MovesByte(s, s', u))
  {
    OwnMove(s, a);
    forall u: nat | u < |s.threads|
      ensures MovedSoFar(Apply(s, a).threads[u]) == MovedSoFar(s.threads[u]) && !MovesByte(s, Apply(s, a), u)
    {
      if u != a.t {
        OthersAreUntouched(s, a, u);
      }
    }
  }

  lemma OwnMove(s: State, a: Action)
    requires Enabled(s, a) && !(a.Run? && s.threads[a.t].pc.WriteMove?)
    ensures var s' := Apply(s, a);
            && |s'.threads| == |s.threads| && s'.usage.moved == s.usage.moved
            && MovedSoFar(s'.threads[a.t]) == MovedSoFar(s.threads[a.t]) && !MovesByte(s, s', a.t)
  {
    if !Quiet(s, a) {
      LeavingOwnMove(s, a);
    }
  }

  lemma LeavingOwnMove(s: State, a: Action)
    requires Enabled(s, a) && !Quiet(s, a)
    ensures var s' := Apply(s, a);
            && |s'.threads| == |s.threads| && s'.usage.moved == s.usage.moved
            && MovedSoFar(s'.threads[a.t]) == MovedSoFar(s.threads[a.t]) && !MovesByte(s, s', a.t)
  {
    match s.threads[a.t].pc
    case ReadLeave(_, _, _) => assert Apply(s, a) == LeaveRead(s, a.t, a.wake);
    case WriteLeave => assert Apply(s, a) == LeaveWrite(s, a.t, a.wake);
  }

  /** In every reachable state the account of moved bytes, with what the copy under way has moved, is the
      number of bytes that have been copied into new buffers. */
  lemma {:induction false} MovedIsCounted(run: seq<State>, i: nat)
    requires FiniteRun(run, Init, Next) && i < |run|
    ensures run[i].usage.moved + Sum(run[i].threads, MovedSoFar) == BytesMoved(run, i)
  {
    if i == 0 {
      NobodyMoves(run[0].threads);
    } else {
      MovedIsCounted(run, i - 1);
      ReachableInv(run, i - 1);
      var a := ActionAt(run, i);
      StepMovesByte(run[i - 1], a);
    }
  }

  // ---------------------------------------------------------------- conservation

  /** The appends of thread `t` recorded in the history, in order. */
  function Mine(h: seq<Entry>, t: nat): seq<string>
  {
    if h == [] then []
    else Mine(h[..|h| - 1], t) + if h[|h| - 1].writer == t then [h[|h| - 1].data] else []
  }

  /** The appends still to be made by a program. Appends of nothing return at once. */
  function Appends(todo: seq<Op>): seq<string>
  {
    if todo == [] then []
    else (if todo[0].AddToLog? && todo[0].data != "" then [todo[0].data] else []) + Appends(todo[1..])
  }

  lemma MineAppend(h: seq<Entry>, e: Entry, t: nat)
    ensures Mine(h + [e], t) == Mine(h, t) + if e.writer == t then [e.data] else []
  {
    assert (h + [e])[..|h|] == h;
  }

  /** Program and history of one thread together never change. */
  function Account(s: State, t: nat): seq<string>
    requires t < |s.threads|
  {
    Mine(s.history, t) + Appends(s.threads[t].todo)
  }

  lemma StepKeepsAccount(s: State, a: Action, t: nat)
    requires Control(s) && Enabled(s, a) && t < |s.threads|
    ensures |Apply(s, a).threads| == |s.threads| && Account(Apply(s, a), t) == Account(s, t)
  {
    assert CallMatches(s.threads[a.t]);
    if t != a.t {
      OthersAreUntouched(s, a, t);
    }
    if a.Run? && s.threads[a.t].pc.WriteLeave? {
      LeaveWriteFrame(s, a);
      LeaveWriteAccount(s, Apply(s, a), a.t, t);
    } else {
      QuietAccount(s, a);
    }
  }

  lemma LeaveWriteAccount(s: State, s': State, writer: nat, t: nat)
    requires writer < |s.threads| == |s'.threads| && t < |s.threads|
    requires s.threads[writer].pc.WriteLeave? && CallMatches(s.threads[writer])
    requires s'.history == s.history + [Entry(writer, DataOf(s, writer))]
    requires s'.threads[t].todo == if t == writer then s.threads[t].todo[1..] else s.threads[t].todo
    ensures Account(s', t) == Account(s, t)
  {
    MineAppend(s.history, Entry(writer, DataOf(s, writer)), t);
  }

  lemma LeaveWriteFrame(s: State, a: Action)
    requires Enabled(s, a) && a.Run? && s.threads[a.t].pc.WriteLeave? && CallMatches(s.threads[a.t])
    ensures var s' := Apply(s, a);
            && s'.history == s.history + [Entry(a.t, DataOf(s, a.t))] && |s'.threads| == |s.threads|
            && s'.threads[a.t].todo == s.threads[a.t].todo[1..]
  {
  }

  lemma QuietAccount(s: State, a: Action)
    requires Enabled(s, a) && CallMatches(s.threads[a.t]) && !s.threads[a.t].pc.WriteLeave?
    ensures var s' := Apply(s, a);
            && |s'.threads| == |s.threads| && s'.history == s.history
            && Appends(s'.threads[a.t].todo) == Appends(s.threads[a.t].todo)
  {
  }

  /** How many snapshots thread `t` has taken, and how many `get_log` calls a program holds. */
  function Taken(xs: seq<Snapshot>, t: nat): nat
  {
    if xs == [] then 0 else Taken(xs[..|xs| - 1], t) + if xs[|xs| - 1].reader == t then 1 else 0
  }

  function Gets(todo: seq<Op>): nat
  {
    if todo == [] then 0 else (if todo[0].GetLog? then 1 else 0) + Gets(todo[1..])
  }

  function Reads(s: State, t: nat): nat
    requires t < |s.threads|
  {
    Taken(s.snapshots, t) + Gets(s.threads[t].todo)
  }

  /** Only the last step of a `get_log` takes a call off a program's list and adds a snapshot. */
  lemma StepMovesReads(s: State, a: Action)
    requires Enabled(s, a) && CallMatches(s.threads[a.t])
    ensures var s', th := Apply(s, a), s.threads[a.t];
            && |s'.threads| == |s.threads|
            && (th.pc.ReadLeave? ==>
                  && th.todo != [] && s'.threads[a.t].todo == th.todo[1..]
                  && s'.snapshots == s.snapshots + [Snapshot(a.t, th.pc.seen, th.pc.dst, th.pc.result)])
            && (!th.pc.ReadLeave? ==> s'.snapshots == s.snapshots)
  {
  }

  lemma StepKeepsGets(s: State, a: Action)
    requires Enabled(s, a) && CallMatches(s.threads[a.t]) && !s.threads[a.t].pc.ReadLeave?
    ensures |Apply(s, a).threads| == |s.threads|
    ensures Gets(Apply(s, a).threads[a.t].todo) == Gets(s.threads[a.t].todo)
  {
  }

  lemma TakenAppend(xs: seq<Snapshot>, x: Snapshot, t: nat)
    ensures Taken(xs + [x], t) == Taken(xs, t) + if x.reader == t then 1 else 0
  {
    assert (xs + [x])[..|xs|] == xs;
  }

  lemma StepKeepsReads(s: State, a: Action, t: nat)
    requires Control(s) && Enabled(s, a) && t < |s.threads|
    ensures |Apply(s, a).threads| == |s.threads| && Reads(Apply(s, a), t) == Reads(s, t)
  {
    var th := s.threads[a.t];
    assert CallMatches(th);
    StepMovesReads(s, a);
    if th.pc.ReadLeave? {
      TakenAppend(s.snapshots, Snapshot(a.t, th.pc.seen, th.pc.dst, th.pc.result), t);
    } else {
      StepKeepsGets(s, a);
    }
    if t != a.t {
      OthersAreUntouched(s, a, t);
    }
  }

  /** In every reachable state, each thread's recorded appends followed by those it still has to
      make are exactly the appends of its program, in program order; and its snapshots and the calls
      of get_log it has not finished are together as many as its program holds. */
  lemma {:induction false} CallsAreConserved(run: seq<State>, i: nat, t: nat)
    requires FiniteRun(run, Init, Next) && i < |run| && t < |run[0].threads|
    ensures |run[i].threads| == |run[0].threads|
    ensures Mine(run[i].history, t) + Appends(run[i].threads[t].todo) == Appends(run[0].threads[t].todo)
    ensures Taken(run[i].snapshots, t) + Gets(run[i].threads[t].todo) == Gets(run[0].threads[t].todo)
  {
    if i > 0 {
      CallsAreConserved(run, i - 1, t);
      ReachableInv(run, i - 1);
      var a := ActionAt(run, i);
      StepKeepsAccount(run[i - 1], a, t);
      StepKeepsReads(run[i - 1], a, t);
    }
  }
}
