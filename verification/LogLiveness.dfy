/** Every maximal run of the log system completes every call: nothing deadlocks, no wakeup is lost,
    and a lexicographic rank falls at every step. */
module LogLiveness {
  import opened Sums
  import opened Runs
  import opened Memory
  import opened Growth
  import opened LogMachine
  import opened LogControl
  import opened LogData
  import opened LogSafety

  // ---------------------------------------------------------------- progress

  predicate Finished(s: State)
  {
    forall t | 0 <= t < |s.threads| :: s.threads[t] == Thread(Idle, [])
  }

  /** A ready thread has an action: a valid set of sleepers to wake and a block always exist. */
  lemma ReadyHasAction(s: State, t: nat) returns (a: Action)
    requires t < |s.threads| && Ready(s, t)
    ensures a.t == t && a.Run? && Enabled(s, a)
  {
    var wake := match WakeupOf(s, t)
      case NoWakeup => {}
      case SignalWriter => Sleepers(s.threads, WriteAsleep)
      case BroadcastReaders => Sleepers(s.threads, ReadAsleep);
    var size := if s.threads[t].pc == WriteTest then MakeRoom(s.usage, |DataOf(s, t)|).capacity else 0;
    a := Run(t, wake, seq(size, _ => NUL));
  }

  /** Inside their bodies readers and writers can always move: no access is out of bounds. */
  lemma BodiesAreReady(s: State, t: nat)
    requires Inv(s) && t < |s.threads| && (Reading(s.threads[t].pc) || Writing(s.threads[t].pc))
    requires s.threads[t].pc.ReadLeave? ==> s.mutex == Free
    ensures Ready(s, t)
  {
    assert ReaderData(s.history, s.usage, s.threads[t].pc);
    assert WriterData(s.buffer, s.usage, Text(s.history), DataOf(s, t), s.threads[t].pc);
    if Reading(s.threads[t].pc) {
      ReaderSeesSettledLog(s, t);
    }
  }

  /** In every reachable state, whoever is about to access the buffer or a copy stays within it. */
  lemma AccessesAreInBounds(run: seq<State>, i: nat, t: nat)
    requires FiniteRun(run, Init, Next) && i < |run| && t < |run[i].threads|
    ensures var s := run[i];
            match s.threads[t].pc
            case ReadCopy(_, room, len, dst) => |dst| < len ==> |dst| < room && |dst| < |s.buffer|
            case WriteMove(block, moved) => moved < s.usage.size ==> moved < |block| && moved < |s.buffer|
            case WriteCopy(copied) => copied < |DataOf(s, t)| ==> s.usage.size + copied < |s.buffer|
            case WriteTerminate => s.usage.size < |s.buffer|
            case _ => true
  {
    ReachableInv(run, i);
    if (Reading(run[i].threads[t].pc) && !run[i].threads[t].pc.ReadLeave?) || Writing(run[i].threads[t].pc) {
      BodiesAreReady(run[i], t);
    }
  }

  /** With the mutex held its holder can move; with it free, an unfinished system has a thread that
      can: a sleeper is never alone. */
  lemma SomebodyIsReady(s: State, t: nat) returns (u: nat)
    requires Inv(s) && t < |s.threads| && s.threads[t] != Thread(Idle, [])
    ensures u < |s.threads| && Ready(s, u)
  {
    if s.mutex.Held? {
      u := s.mutex.owner;
      assert HoldsMutex(s.threads[u].pc) <==> s.mutex == Held(u);
      if Writing(s.threads[u].pc) {
        BodiesAreReady(s, u);
      }
    } else {
      u := ReadyWithMutexFree(s, t);
    }
  }

  lemma ReadyWithMutexFree(s: State, t: nat) returns (u: nat)
    requires Inv(s) && s.mutex == Free && t < |s.threads| && s.threads[t] != Thread(Idle, [])
    ensures u < |s.threads| && Ready(s, u)
  {
    assert CallMatches(s.threads[t]);
    assert !HoldsMutex(s.threads[t].pc);
    if s.threads[t].pc in {ReadAsleep, WriteAsleep} {
      u := SleeperHasHelper(s, t);
      assert !HoldsMutex(s.threads[u].pc);
      if s.threads[u].pc == WriteAsleep {
        u := SleeperHasHelper(s, u);
        assert !HoldsMutex(s.threads[u].pc);
      }
    } else {
      u := t;
    }
    if Reading(s.threads[u].pc) {
      BodiesAreReady(s, u);
    }
  }

  lemma StuckMeansFinished(s: State)
    requires Inv(s) && Stuck(s, Next)
    ensures Finished(s)
  {
    forall t | 0 <= t < |s.threads| ensures s.threads[t] == Thread(Idle, []) {
      if s.threads[t] != Thread(Idle, []) {
        var u := SomebodyIsReady(s, t);
        var a := ReadyHasAction(s, u);
        assert Next(s, Apply(s, a));
      }
    }
  }

  // ---------------------------------------------------------------- the rank

  /** Steps a call may still take, not counting bytes copied. Each leaving step also pays for the
      threads it wakes (two steps each, at most `n` threads). */
  function PcWork(pc: Pc, n: nat): nat
  {
    match pc
    case Idle => 0
    case ReadLeave(_, _, _) => 2 * n + 1
    case ReadResult(_, _) => 2 * n + 2
    case ReadCopy(_, _, _, _) => 2 * n + 3
    case ReadMeasure(_, _) => 2 * n + 4
    case ReadAllocate(_) => 2 * n + 5
    case ReadAsleep => 2 * n + 6
    case ReadGate => 2 * n + 7
    case ReadWoken => 2 * n + 8
    case WriteLeave => 2 * n + 1
    case WriteTerminate => 2 * n + 2
    case WriteCopy(_) => 2 * n + 3
    case WriteMove(_, _) => 2 * n + 4
    case WriteTest => 2 * n + 5
    case WriteAsleep => 2 * n + 6
    case WriteGate => 2 * n + 7
    case WriteWoken => 2 * n + 8
  }

  function CallWork(n: nat): nat
  {
    2 * n + 9
  }

  /** Calls of a thread not yet started. */
  function Unstarted(th: Thread): nat
  {
    if th.pc == Idle || th.todo == [] then |th.todo| else |th.todo| - 1
  }

  function ThreadWork(th: Thread, n: nat): nat
  {
    PcWork(th.pc, n) + CallWork(n) * Unstarted(th)
  }

  function WorkOf(n: nat): Thread -> int
  {
    (th: Thread) => ThreadWork(th, n)
  }

  function Work(s: State): (w: nat)
  {
    SumNonNegative(s.threads, WorkOf(|s.threads|));
    Sum(s.threads, WorkOf(|s.threads|))
  }

  /** Bytes still to be copied in the memcpy that a thread is in. */
  function ThreadBytes(th: Thread, size: nat): nat
  {
    match th.pc
    case ReadCopy(_, _, len, dst) => if |dst| < len then len - |dst| else 0
    case WriteMove(_, moved) => if moved < size then size - moved else 0
    case WriteCopy(copied) =>
      var data := if th.todo != [] && th.todo[0].AddToLog? then th.todo[0].data else "";
      if copied < |data| then |data| - copied else 0
    case _ => 0
  }

  function BytesOf(size: nat): Thread -> int
  {
    (th: Thread) => ThreadBytes(th, size)
  }

  function Bytes(s: State): (b: nat)
  {
    SumNonNegative(s.threads, BytesOf(s.usage.size));
    Sum(s.threads, BytesOf(s.usage.size))
  }

  function LogRank(s: State): Rank
  {
    Rank(s.spurious, Work(s), Bytes(s), 0, 0)
  }

  lemma WorkUpdate(ts: seq<Thread>, t: nat, th: Thread, n: nat)
    requires t < |ts|
    ensures Sum(ts[t := th], WorkOf(n)) == Sum(ts, WorkOf(n)) - ThreadWork(ts[t], n) + ThreadWork(th, n)
  {
    SumUpdate(ts, t, th, WorkOf(n));
  }

  lemma BytesUpdate(ts: seq<Thread>, t: nat, th: Thread, size: nat)
    requires t < |ts|
    ensures Sum(ts[t := th], BytesOf(size)) == Sum(ts, BytesOf(size)) - ThreadBytes(ts[t], size) + ThreadBytes(th, size)
  {
    SumUpdate(ts, t, th, BytesOf(size));
  }

  lemma WakingCosts(ts: seq<Thread>, wake: set<nat>, n: nat)
    ensures Sum(WakeAll(ts, wake), WorkOf(n)) <= Sum(ts, WorkOf(n)) + 2 * |ts|
  {
    SumShift(ts, WakeAll(ts, wake), WorkOf(n), 0, 2, |ts|);
  }

  /** One thread's own step: its work falls, or it copies one more byte. */
  lemma OwnStepWorks(s: State, a: Action, n: nat)
    requires Quiet(s, a) && a.Run? && CallMatches(s.threads[a.t])
    requires |Apply(s, a).threads| == |s.threads|
    ensures var th, s' := s.threads[a.t], Apply(s, a); var th' := s'.threads[a.t];
            || ThreadWork(th', n) < ThreadWork(th, n)
            || (ThreadWork(th', n) == ThreadWork(th, n) && s'.usage.size == s.usage.size
                && ThreadBytes(th', s.usage.size) < ThreadBytes(th, s.usage.size))
    ensures Apply(s, a).spurious == s.spurious
  {
    var th, th' := s.threads[a.t], Apply(s, a).threads[a.t];
    OwnStepCalls(s, a);
    CallsCost(n, Unstarted(th), Unstarted(th'));
  }

  lemma CallsCost(n: nat, k: nat, k': nat)
    requires k' <= k
    ensures CallWork(n) * k' <= CallWork(n) * k
    ensures k' < k ==> CallWork(n) * k' + CallWork(n) <= CallWork(n) * k
  {
    MultiplyMonotone(CallWork(n), k', k);
    if k' < k {
      MultiplyMonotone(CallWork(n), k' + 1, k);
    }
  }

  lemma MultiplyMonotone(c: nat, k': nat, k: nat)
    requires k' <= k
    ensures c * k' <= c * k
    ensures c * (k' + 1) == c * k' + c
  {
  }

  lemma OwnStepCalls(s: State, a: Action)
    requires Quiet(s, a) && a.Run? && CallMatches(s.threads[a.t])
    requires |Apply(s, a).threads| == |s.threads|
    ensures var th, th' := s.threads[a.t], Apply(s, a).threads[a.t];
            Unstarted(th') == Unstarted(th) - if th.pc == Idle then 1 else 0
  {
  }

  lemma QuietStepLowersRank(s: State, a: Action)
    requires Control(s) && Quiet(s, a)
    ensures LogRank(s).Above(LogRank(Apply(s, a)))
  {
    QuietStepMovesOneThread(s, a);
    if a.Run? {
      var s', n := Apply(s, a), |s.threads|;
      assert CallMatches(s.threads[a.t]);
      OwnStepWorks(s, a, n);
      WorkUpdate(s.threads, a.t, s'.threads[a.t], n);
      BytesUpdate(s.threads, a.t, s'.threads[a.t], s.usage.size);
    }
  }

  lemma LeavingStepLowersRank(s: State, a: Action)
    requires Control(s) && Enabled(s, a) && a.Run? && (s.threads[a.t].pc.ReadLeave? || s.threads[a.t].pc.WriteLeave?)
    ensures LogRank(s).Above(LogRank(Apply(s, a)))
  {
    var n, th := |s.threads|, s.threads[a.t];
    assert CallMatches(th);
    var ts := Return(s, a.t).threads;
    LeavingFrame(s, a);
    LeavingPays(th, n);
    WorkUpdate(s.threads, a.t, ts[a.t], n);
    WakingCosts(ts, a.wake, n);
  }

  /** The last step of a call pays for everybody it may wake. */
  lemma LeavingPays(th: Thread, n: nat)
    requires (th.pc.ReadLeave? || th.pc.WriteLeave?) && th.todo != []
    ensures ThreadWork(Thread(Idle, th.todo[1..]), n) + 2 * n < ThreadWork(th, n)
  {
  }

  lemma LeavingFrame(s: State, a: Action)
    requires Enabled(s, a) && a.Run? && (s.threads[a.t].pc.ReadLeave? || s.threads[a.t].pc.WriteLeave?)
    requires s.threads[a.t].todo != []
    ensures var s' := Apply(s, a);
            && s'.threads == WakeAll(Return(s, a.t).threads, a.wake)
            && s'.spurious == s.spurious
  {
  }

  lemma StepLowersRank(s: State, a: Action)
    requires Control(s) && Enabled(s, a)
    ensures LogRank(s).Above(LogRank(Apply(s, a)))
  {
    if Quiet(s, a) {
      QuietStepLowersRank(s, a);
    } else {
      LeavingStepLowersRank(s, a);
    }
  }

  // ---------------------------------------------------------------- every run completes

  lemma NextLowersRank(s: State, s': State)
    requires Inv(s) && Next(s, s')
    ensures Inv(s') && LogRank(s).Above(LogRank(s'))
  {
    var a :| Enabled(s, a) && s' == Apply(s, a);
    StepKeepsInv(s, a);
    StepLowersRank(s, a);
  }

  lemma EveryRunFinishes(run: nat -> State) returns (n: nat)
    requires MaximalRun(run, Next) && Inv(run(0))
    ensures Inv(run(n)) && Finished(run(n))
  {
    forall s, s' | Inv(s) && Next(s, s') ensures Inv(s') && LogRank(s).Above(LogRank(s')) { NextLowersRank(s, s'); }
    n := MaximalRunStops(run, Next, Inv, LogRank, 0);
    StuckMeansFinished(run(n));
  }

  /** From the initial state, for any programs and any budget of spurious wakeups, every maximal run
      reaches a state in which every call of every thread has returned, and the log then holds the
      appends of each thread in program order and has answered each get_log. */
  lemma EveryCallCompletes(run: nat -> State) returns (n: nat)
    requires MaximalRun(run, Next) && Init(run(0))
    ensures Finished(run(n))
    ensures |run(n).threads| == |run(0).threads|
    ensures forall t: nat | t < |run(0).threads| :: Mine(run(n).history, t) == Appends(run(0).threads[t].todo)
    ensures forall t: nat | t < |run(0).threads| :: Taken(run(n).snapshots, t) == Gets(run(0).threads[t].todo)
    ensures Holds(run(n).buffer, run(n).usage, Text(run(n).history))
  {
    InitInv(run(0));
    n := EveryRunFinishes(run);
    FinishedHolds(run(n));
    MaximalRunKeepsThreads(run, n);
    forall t: nat | t < |run(0).threads|
      ensures Mine(run(n).history, t) == Appends(run(0).threads[t].todo)
      ensures Taken(run(n).snapshots, t) == Gets(run(0).threads[t].todo)
    {
      FinishedAccount(run, n, t);
    }
  }

  lemma FinishedHolds(s: State)
    requires Inv(s) && Finished(s)
    ensures Holds(s.buffer, s.usage, Text(s.history))
  {
    NobodyWrites(s.threads, s.mutex);
  }

  lemma FinishedAccount(run: nat -> State, n: nat, t: nat)
    requires MaximalRun(run, Next) && Inv(run(0)) && run(0).history == [] && run(0).snapshots == [] && Finished(run(n))
    requires |run(n).threads| == |run(0).threads| && t < |run(0).threads|
    ensures Mine(run(n).history, t) == Appends(run(0).threads[t].todo)
    ensures Taken(run(n).snapshots, t) == Gets(run(0).threads[t].todo)
  {
    AccountOnMaximalRun(run, n, t);
    assert run(n).threads[t].todo == [];
    assert Mine(run(n).history, t) + [] == Mine(run(n).history, t);
    assert [] + Appends(run(0).threads[t].todo) == Appends(run(0).threads[t].todo);
  }

  lemma StepKeepsThreads(s: State, s': State)
    requires Next(s, s')
    ensures |s'.threads| == |s.threads|
  {
  }

  lemma {:induction false} AccountOnMaximalRun(run: nat -> State, i: nat, t: nat)
    requires MaximalRun(run, Next) && Inv(run(0)) && t < |run(0).threads|
    ensures Inv(run(i)) && |run(i).threads| == |run(0).threads|
    ensures Account(run(i), t) == Account(run(0), t) && Reads(run(i), t) == Reads(run(0), t)
  {
    if i > 0 {
      AccountOnMaximalRun(run, i - 1, t);
      assert MovesAt(run, Next, i - 1);
      if run(i) != run(i - 1) {
        var a :| Enabled(run(i - 1), a) && run(i) == Apply(run(i - 1), a);
        StepKeepsInv(run(i - 1), a);
        StepKeepsAccount(run(i - 1), a, t);
        StepKeepsReads(run(i - 1), a, t);
      }
    }
  }

  lemma {:induction false} MaximalRunKeepsThreads(run: nat -> State, i: nat)
    requires MaximalRun(run, Next)
    ensures |run(i).threads| == |run(0).threads|
  {
    if i > 0 {
      MaximalRunKeepsThreads(run, i - 1);
      assert MovesAt(run, Next, i - 1);
      if run(i) != run(i - 1) {
        StepKeepsThreads(run(i - 1), run(i));
      }
    }
  }
}
