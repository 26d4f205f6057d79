/** What the pool guarantees in every reachable state and over every maximal run. */
module PoolTheorems {
  import opened Sums
  import opened Runs
  import opened Clock
  import opened BoundedQueue
  import opened PoolMachine
  import opened PoolInvariant

  lemma NextKeepsInv(s: State, s': State)
    requires Inv(s) && Next(s, s')
    ensures Inv(s')
  {
    var a :| Enabled(s, a) && s' == Apply(s, a);
    StepKeepsInv(s, a);
  }

  lemma ReachableInv(run: seq<State>, i: nat)
    requires FiniteRun(run, Init, Next) && i < |run|
    ensures Inv(run[i])
  {
    forall s | Init(s) ensures Inv(s) { InitInv(s); }
    forall s, s' | Inv(s) && Next(s, s') ensures Inv(s') { NextKeepsInv(s, s'); }
    InvariantOnRun(run, Init, Next, Inv, i);
  }

  // ---------------------------------------------------------------- reachable states

  /** The ring is a FIFO queue: requests are dispatched in the order in which connections were
      accepted, none lost, none twice, and the indices and counters agree. */
  lemma RingIsFifo(run: seq<State>, i: nat)
    requires FiniteRun(run, Init, Next) && i < |run|
    ensures var s := run[i];
            && s.ring.Ok() && s.ring.rear == (s.ring.front + s.ring.queued) % s.ring.Capacity()
            && s.ring.size - s.ring.queued == Sum(s.workers, BusyBit)
            && Requests(s.dispatched) + s.ring.Queue() == s.enqueued
            && Descriptors(s.enqueued) + Carried(s.main) == s.accepted
  {
    ReachableInv(run, i);
    SlotIsModular(run[i].ring.front, run[i].ring.queued, run[i].ring.Capacity());
  }

  /** Whenever a worker sleeps on not_empty, at least as many workers have been woken and not run as
      requests are queued; main sleeps on not_full only when the queue is full. */
  lemma NoLostWakeup(run: seq<State>, i: nat, w: nat)
    requires FiniteRun(run, Init, Next) && i < |run|
    ensures w < |run[i].workers| && run[i].workers[w] == Asleep ==> Sum(run[i].workers, WokenBit) >= run[i].ring.queued
    ensures MainAsleep(run[i].main) ==> run[i].ring.size == run[i].ring.Capacity()
  {
    ReachableInv(run, i);
    if w < |run[i].workers| && run[i].workers[w] == Asleep {
      SumAtLeast(run[i].workers, AsleepBit, w);
    }
  }

  /** main is the only producer, so the wait loop inside enqueue is never entered. `releasedAtStamp` has
      one number for each request enqueued, in that order, and one for the request that main has stamped
      and not yet enqueued: number `k` is at least `k - capacity + 1`. */
  lemma BackPressureHolds(run: seq<State>, i: nat, k: nat)
    requires FiniteRun(run, Init, Next) && i < |run|
    ensures !run[i].main.InnerAsleep?
    ensures run[i].main.Enqueuing? ==> !run[i].ring.Full()
    ensures |run[i].releasedAtStamp| == |run[i].enqueued| + if run[i].main.Enqueuing? then 1 else 0
    ensures k < |run[i].releasedAtStamp| ==> run[i].releasedAtStamp[k] >= k - run[i].ring.Capacity() + 1
    ensures |run[i].enqueued| == run[i].released + run[i].ring.size
  {
    ReachableInv(run, i);
  }

  /** Arrival stamps follow accept order, dispatch stamps dispatch order, and the interval handed to a
      request is normalised, non-negative and exact. */
  lemma StampsAreOrdered(run: seq<State>, i: nat, w: nat)
    requires FiniteRun(run, Init, Next) && i < |run|
    ensures SortedRequests(run[i].enqueued) && SortedDispatches(run[i].dispatched)
    ensures w < |run[i].workers| && run[i].workers[w].Handling? ==>
              var Handling(k, req, interval) := run[i].workers[w];
              && k < |run[i].dispatched| && run[i].dispatched[k].req == req
              && interval.Normal() && interval.sec >= 0
              && req.arrival.Micros() + interval.Micros() == run[i].dispatched[k].at.Micros()
  {
    ReachableInv(run, i);
    assert w < |run[i].workers| ==> IntervalCorrect(run[i].dispatched, run[i].workers[w]);
  }

  lemma ActionAt(run: seq<State>, i: nat) returns (a: Action)
    requires FiniteRun(run, Init, Next) && 0 < i < |run|
    ensures Enabled(run[i - 1], a) && run[i] == Apply(run[i - 1], a)
  {
    assert StepsAt(run, Next, i);
    a :| Enabled(run[i - 1], a) && run[i] == Apply(run[i - 1], a);
  }

  /** From `s` to `s'` worker `w` has taken the oldest queued request at the instant `now`, and handles it
      from then on. */
  ghost predicate DispatchedAt(s: State, s': State, w: nat, now: Timeval)
  {
    && Enabled(s, Worker(w, now)) && s'.clock == now
    && s.ring.Ok() && s.ring.queued > 0
    && s'.dispatched == s.dispatched + [Dispatch(s.ring.Queue()[0], now)]
    && w < |s'.workers| && s'.workers[w].Handling?
    && s'.workers[w].k == |s.dispatched| && s'.workers[w].req == s.ring.Queue()[0]
    && s'.workers[w].req.arrival.Micros() + s'.workers[w].interval.Micros() == now.Micros()
  }

  lemma DequeueStamps(s: State, w: nat, now: Timeval)
    requires Inv(s) && Enabled(s, Worker(w, now)) && s.workers[w] in {Ready, Woken} && s.ring.queued > 0
    ensures DispatchedAt(s, WorkerStep(s, w, now), w, now)
  {
    var req := s.ring.First();
    assert req == s.ring.Queue()[0];
    assert req == s.enqueued[|s.dispatched|];
    TimerSubIsDifference(now, req.arrival);
  }

  /** A request's dispatch stamp is the instant of the step that dequeues it. */
  lemma DispatchStampIsNow(run: seq<State>, i: nat) returns (w: nat, now: Timeval)
    requires FiniteRun(run, Init, Next) && 0 < i < |run| && run[i].dispatched != run[i - 1].dispatched
    ensures DispatchedAt(run[i - 1], run[i], w, now)
  {
    ReachableInv(run, i - 1);
    var a := ActionAt(run, i);
    w, now := a.w, a.now;
    DequeueStamps(run[i - 1], w, now);
  }

  /** From `s` to `s'` main has taken the arrival stamp of the connection it carries. */
  ghost predicate StampedAt(s: State, s': State, now: Timeval)
  {
    s.main.Stamping? && s'.main == Enqueuing(s.main.fd, now) && s'.clock == now && s.clock.Micros() <= now.Micros()
  }

  /** A request's arrival stamp is the instant at which main read the clock, and it is stored unchanged. */
  lemma ArrivalStampIsNow(run: seq<State>, i: nat)
    requires FiniteRun(run, Init, Next) && 0 < i < |run|
    ensures run[i].main.Enqueuing? && run[i].main != run[i - 1].main ==>
              StampedAt(run[i - 1], run[i], run[i].main.stamp)
    ensures run[i].enqueued != run[i - 1].enqueued ==>
              && run[i - 1].main.Enqueuing?
              && run[i].enqueued == run[i - 1].enqueued + [Request(run[i - 1].main.fd, run[i - 1].main.stamp)]
  {
    ReachableInv(run, i - 1);
    var a := ActionAt(run, i);
  }

  /** At most capacity + 1 connections are accepted and not yet closed, and at most
      min(workers, capacity) requests are in service. */
  lemma ResourcesAreBounded(run: seq<State>, i: nat)
    requires FiniteRun(run, Init, Next) && i < |run|
    ensures |run[i].accepted| - |run[i].closed| <= run[i].ring.Capacity() + 1
    ensures Sum(run[i].workers, BusyBit) <= run[i].ring.Capacity()
    ensures Sum(run[i].workers, BusyBit) <= |run[i].workers|
  {
    ReachableInv(run, i);
    SumBetween(run[i].workers, BusyBit, 1);
    CountClosings(run[i].closed, run[i].workers, |run[i].dispatched|);
    HandlingIsBusy(run[i].workers, |run[i].workers|);
  }

  lemma {:induction false} HandlingIsBusy(ws: seq<WorkerPc>, n: nat)
    requires n <= |ws|
    ensures SumTo(ws, n, HandlingBit) <= SumTo(ws, n, BusyBit)
  {
    if n > 0 {
      HandlingIsBusy(ws, n - 1);
    }
  }

  /** Requests 0..n-1 are each closed once or handled by one worker: the two totals add up to n. */
  lemma {:induction false} CountClosings(closed: multiset<nat>, ws: seq<WorkerPc>, n: nat)
    requires forall k: nat :: closed[k] + Sum(ws, Handles(k)) == if k < n then 1 else 0
    ensures |closed| + Sum(ws, HandlingBit) == n
    decreases n
  {
    if n == 0 {
      forall k: nat ensures closed[k] == 0 { SumNonNegative(ws, Handles(k)); }
      assert closed == multiset{};
      forall w | 0 <= w < |ws| ensures HandlingBit(ws[w]) == 0 {
        if ws[w].Handling? {
          SumNonNegative(ws, Handles(ws[w].k));
          SumAtLeast(ws, Handles(ws[w].k), w);
        }
      }
      SumZero(ws, HandlingBit);
    } else {
      var last := n - 1;
      SumNonNegative(ws, Handles(last));
      if closed[last] == 1 {
        CountClosings(closed - multiset{last}, ws, last);
      } else {
        var w := SumWitness(ws, Handles(last));
        var ws' := ws[w := Ready];
        forall k: nat ensures closed[k] + Sum(ws', Handles(k)) == if k < last then 1 else 0 {
          SumUpdate(ws, w, Ready, Handles(k));
        }
        SumUpdate(ws, w, Ready, HandlingBit);
        CountClosings(closed, ws', last);
      }
    }
  }

  // ---------------------------------------------------------------- progress

  /** Nothing left to do: every worker asleep, nothing queued or in service, main back in accept. */
  ghost predicate Quiescent(s: State)
  {
    && s.conns == [] && s.main == Accepting
    && s.ring.size == 0 && s.ring.queued == 0
    && forall w | 0 <= w < |s.workers| :: s.workers[w] == Asleep
  }

  lemma StuckMeansQuiescent(s: State)
    requires Inv(s) && Stuck(s, Next)
    ensures Quiescent(s)
  {
    forall w: nat | w < |s.workers| ensures s.workers[w] == Asleep {
      if s.workers[w] != Asleep {
        WorkerCanMove(s, w);
      }
    }
    SumZero(s.workers, WokenBit);
    SumZero(s.workers, BusyBit);
    SumAtLeast(s.workers, AsleepBit, 0);
    if !(s.main == Accepting && s.conns == []) {
      var a := MainCanMove(s);
    }
  }

  lemma WorkerCanMove(s: State, w: nat)
    requires Inv(s) && w < |s.workers| && s.workers[w] != Asleep
    ensures Enabled(s, Worker(w, s.clock)) && Next(s, Apply(s, Worker(w, s.clock)))
  {
    if s.workers[w].Finishing? {
      FinishingIsBusy(s, w);
    }
  }

  lemma MainCanMove(s: State) returns (a: Action)
    requires Inv(s) && !MainAsleep(s.main) && (s.main == Accepting ==> s.conns != [])
    ensures a.Main? && Enabled(s, a) && Next(s, Apply(s, a))
  {
    a := Main(if Stores(s) then Sleepers(s.workers) else {}, s.clock);
    if s.main.Enqueuing? {
      PutAppends(s.ring, Request(s.main.fd, s.main.stamp));
    }
  }

  /** Everybody is asleep or handling a request for good, and main cannot go on either. */
  ghost predicate Settled(s: State)
  {
    && (forall w | 0 <= w < |s.workers| :: s.workers[w] == Asleep || s.workers[w].Handling?)
    && (MainAsleep(s.main) || (s.main == Accepting && s.conns == []))
  }

  lemma {:induction false} SomebodyIsFree(ws: seq<WorkerPc>, n: nat) returns (w: nat)
    requires n <= |ws| && SumTo(ws, n, HandlingBit) < n
    ensures w < n && !ws[w].Handling?
  {
    if ws[n - 1].Handling? {
      w := SomebodyIsFree(ws, n - 1);
    } else {
      w := n - 1;
    }
  }

  /** As long as fewer requests than workers and slots are never finished, all others get through: the
      queue is empty and main is back in accept with nobody left to wait for. */
  lemma SettledMeansServed(s: State)
    requires Inv(s) && Settled(s)
    ensures s.ring.size == s.ring.queued + Sum(s.workers, HandlingBit)
    ensures Sum(s.workers, HandlingBit) < |s.workers| ==> s.ring.queued == 0
    ensures Sum(s.workers, HandlingBit) < |s.workers| && Sum(s.workers, HandlingBit) < s.ring.Capacity() ==>
              s.main == Accepting && s.conns == []
  {
    SumOfSums(s.workers, BusyBit, HandlingBit, FinishingBit);
    SumZero(s.workers, FinishingBit);
    if Sum(s.workers, HandlingBit) < |s.workers| {
      var w := SomebodyIsFree(s.workers, |s.workers|);
      SumAtLeast(s.workers, AsleepBit, w);
      SumZero(s.workers, WokenBit);
    }
  }

  // ---------------------------------------------------------------- the rank

  function WorkerWork(pc: WorkerPc): int
  {
    match pc
    case Asleep => 0
    case Ready => 1
    case Woken => 1
    case Finishing(_) => 3
    case Handling(_, _, _) => 4
  }

  /** Storing a request pays for its service and for waking up to `n` workers. */
  function MainWork(pc: MainPc, n: nat): nat
  {
    match pc
    case Accepting => 0
    case InnerAsleep(_, _) => n + 4
    case Enqueuing(_, _) => n + 5
    case Stamping(_) => n + 6
    case OuterAsleep(_) => n + 7
    case OuterTest(_) => n + 8
  }

  function Work(s: State): (w: nat)
  {
    SumNonNegative(s.workers, WorkerWork);
    Sum(s.workers, WorkerWork) + 4 * s.ring.queued + MainWork(s.main, |s.workers|) + (|s.workers| + 9) * |s.conns|
  }

  function PoolRank(s: State): Rank
  {
    Rank(s.spurious, Work(s), 0, 0, 0)
  }

  lemma OneFewer(c: nat, k: nat)
    requires k > 0
    ensures c * k == c * (k - 1) + c
  {
  }

  lemma MainLowersRank(s: State, wake: set<nat>, now: Timeval)
    requires Enabled(s, Main(wake, now))
    ensures PoolRank(s).Above(PoolRank(MainStep(s, wake, now)))
  {
    if Stores(s) {
      StoringLowersRank(s, wake, now);
    } else if s.main == Accepting {
      OneFewer(|s.workers| + 9, |s.conns|);
    }
  }

  lemma StoringLowersRank(s: State, wake: set<nat>, now: Timeval)
    requires Enabled(s, Main(wake, now)) && Stores(s)
    ensures PoolRank(s).Above(PoolRank(MainStep(s, wake, now)))
  {
    WakingCosts(s.workers, wake);
  }

  lemma WakingCosts(ws: seq<WorkerPc>, wake: set<nat>)
    ensures Sum(WakeWorkers(ws, wake), WorkerWork) <= Sum(ws, WorkerWork) + |ws|
  {
    SumShift(ws, WakeWorkers(ws, wake), WorkerWork, 0, 1, |ws|);
  }

  lemma WorkerLowersRank(s: State, w: nat, now: Timeval)
    requires Enabled(s, Worker(w, now))
    ensures PoolRank(s).Above(PoolRank(WorkerStep(s, w, now)))
  {
    var s' := WorkerStep(s, w, now);
    SumUpdate(s.workers, w, s'.workers[w], WorkerWork);
  }

  lemma StepLowersRank(s: State, a: Action)
    requires Enabled(s, a)
    ensures PoolRank(s).Above(PoolRank(Apply(s, a)))
  {
    match a
    case Main(wake, now) => MainLowersRank(s, wake, now);
    case Worker(w, now) => WorkerLowersRank(s, w, now);
    case SpuriousMain =>
    case SpuriousWorker(_) =>
  }

  lemma NextLowersRank(s: State, s': State)
    requires Inv(s) && Next(s, s')
    ensures Inv(s') && PoolRank(s).Above(PoolRank(s'))
  {
    var a :| Enabled(s, a) && s' == Apply(s, a);
    StepKeepsInv(s, a);
    StepLowersRank(s, a);
  }

  // ---------------------------------------------------------------- every run serves everybody

  /** The batch as main sees it: accepted and still to come. */
  function Batch(s: State): seq<int>
  {
    s.accepted + s.conns
  }

  lemma MainKeepsBatch(s: State, wake: set<nat>, now: Timeval)
    requires Enabled(s, Main(wake, now))
    ensures Batch(MainStep(s, wake, now)) == Batch(s)
  {
    if s.main == Accepting {
      assert s.conns == [s.conns[0]] + s.conns[1..];
    }
  }

  lemma StepKeepsBatch(s: State, a: Action)
    requires Enabled(s, a)
    ensures Batch(Apply(s, a)) == Batch(s)
  {
    if a.Main? {
      MainKeepsBatch(s, a.wake, a.now);
    }
  }

  lemma NextKeepsBatch(s: State, s': State)
    requires Next(s, s')
    ensures Batch(s') == Batch(s)
  {
    var a :| Enabled(s, a) && s' == Apply(s, a);
    StepKeepsBatch(s, a);
  }

  lemma {:induction false} BatchOnMaximalRun(run: nat -> State, i: nat)
    requires MaximalRun(run, Next)
    ensures Batch(run(i)) == Batch(run(0))
  {
    if i > 0 {
      BatchOnMaximalRun(run, i - 1);
      assert MovesAt(run, Next, i - 1);
      if run(i) != run(i - 1) {
        NextKeepsBatch(run(i - 1), run(i));
      }
    }
  }

  /** For any batch of connections, any number of workers and any capacity (both at least 1) and any
      budget of spurious wakeups, every maximal run comes to rest in a quiescent state in which the batch
      was dispatched in order and each connection closed exactly once. */
  lemma EveryConnectionIsServed(run: nat -> State) returns (n: nat)
    requires MaximalRun(run, Next) && Init(run(0))
    ensures Quiescent(run(n)) && Stuck(run(n), Next)
    ensures |run(n).dispatched| == |run(0).conns|
    ensures forall k | 0 <= k < |run(0).conns| :: run(n).dispatched[k].req.connfd == run(0).conns[k]
    ensures forall k: nat :: run(n).closed[k] == if k < |run(0).conns| then 1 else 0
  {
    InitInv(run(0));
    forall s, s' | Inv(s) && Next(s, s') ensures Inv(s') && PoolRank(s).Above(PoolRank(s')) { NextLowersRank(s, s'); }
    n := MaximalRunStops(run, Next, Inv, PoolRank, 0);
    StuckMeansQuiescent(run(n));
    BatchOnMaximalRun(run, n);
    QuiescentMeansServed(run(n), run(0).conns);
  }

  /** Whatever has been dispatched is the front of the batch, in its order. */
  lemma DispatchedFollowsBatch(s: State)
    requires Inv(s)
    ensures |s.dispatched| <= |Batch(s)|
    ensures forall k | 0 <= k < |s.dispatched| :: s.dispatched[k].req.connfd == Batch(s)[k]
    ensures s.main == Accepting && s.conns == [] && s.ring.queued == 0 ==> |s.dispatched| == |Batch(s)|
  {
    forall k | 0 <= k < |s.dispatched| ensures s.dispatched[k].req.connfd == Batch(s)[k] {
      assert s.enqueued[k] == Requests(s.dispatched)[k];
      assert Batch(s)[k] == s.accepted[k] == Descriptors(s.enqueued)[k];
    }
  }

  lemma QuiescentMeansServed(s: State, batch: seq<int>)
    requires Inv(s) && Quiescent(s) && Batch(s) == batch
    ensures |s.dispatched| == |batch|
    ensures forall k | 0 <= k < |batch| :: s.dispatched[k].req.connfd == batch[k]
    ensures forall k: nat :: s.closed[k] == if k < |batch| then 1 else 0
  {
    assert s.accepted == batch;
    assert s.ring.Queue() == [];
    assert s.enqueued == Requests(s.dispatched);
    assert Descriptors(s.enqueued) == batch;
    forall k: nat ensures s.closed[k] == if k < |batch| then 1 else 0 {
      SumZero(s.workers, Handles(k));
    }
  }
}
