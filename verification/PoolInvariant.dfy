/** The invariant of the pool: slot accounting, FIFO order, time stamps, back-pressure, wakeups
    and the fate of every connection, kept by every step. */
module PoolInvariant {
  import opened Sums
  import opened Clock
  import opened BoundedQueue
  import opened PoolMachine

  function BusyBit(pc: WorkerPc): int { Bit(pc.Handling? || pc.Finishing?) }
  function AsleepBit(pc: WorkerPc): int { Bit(pc == Asleep) }
  function WokenBit(pc: WorkerPc): int { Bit(pc == Woken) }
  function HandlingBit(pc: WorkerPc): int { Bit(pc.Handling?) }
  function FinishingBit(pc: WorkerPc): int { Bit(pc.Finishing?) }

  /** Is this worker handling request `k`? */
  function Handles(k: nat): WorkerPc -> int
  {
    (pc: WorkerPc) => Bit(pc.Handling? && pc.k == k)
  }

  function Requests(d: seq<Dispatch>): (r: seq<Request>)
    ensures |r| == |d|
    ensures forall k | 0 <= k < |d| :: r[k] == d[k].req
  {
    seq(|d|, k requires 0 <= k < |d| => d[k].req)
  }

  // ---------------------------------------------------------------- slots and wakeups

  /** Slot accounting, no lost wakeup on not_empty, and main sleeps only when the queue is full.
      Once main has passed its own test the queue cannot fill up, since main is the only producer. */
  ghost predicate Slots(s: State)
  {
    && s.ring.Ok()
    && s.ring.size - s.ring.queued == Sum(s.workers, BusyBit)
    && (Sum(s.workers, AsleepBit) > 0 ==> Sum(s.workers, WokenBit) >= s.ring.queued)
    && (s.main.OuterAsleep? ==> s.ring.Full())
    && (s.main.Stamping? || s.main.Enqueuing? ==> !s.ring.Full())
    && !s.main.InnerAsleep?
    && |s.enqueued| == s.released + s.ring.size
  }

  // ---------------------------------------------------------------- order

  /** The descriptor main is carrying to the queue. */
  function Carried(pc: MainPc): seq<int>
  {
    if pc == Accepting then [] else [pc.fd]
  }

  function Descriptors(rs: seq<Request>): (r: seq<int>)
    ensures |r| == |rs|
    ensures forall k | 0 <= k < |rs| :: r[k] == rs[k].connfd
  {
    seq(|rs|, k requires 0 <= k < |rs| => rs[k].connfd)
  }

  /** What was dispatched followed by what is queued is what was enqueued; that followed by what main
      carries is what was accepted. */
  ghost predicate Fifo(s: State)
  {
    && s.ring.Ok()
    && s.enqueued == Requests(s.dispatched) + s.ring.Queue()
    && s.accepted == Descriptors(s.enqueued) + Carried(s.main)
  }

  /** A worker that is handling or finishing has a request that was dispatched. */
  predicate Holder(ds: seq<Dispatch>, pc: WorkerPc)
  {
    && (pc.Handling? ==> pc.k < |ds| && ds[pc.k].req == pc.req)
    && (pc.Finishing? ==> pc.k < |ds|)
  }

  /** Each dispatched request is being handled by exactly one worker or its connection has been
      closed exactly once; no other request is handled or closed. */
  ghost predicate ClosedOnce(s: State)
  {
    && (forall k: nat :: s.closed[k] + Sum(s.workers, Handles(k)) == if k < |s.dispatched| then 1 else 0)
    && (forall w | 0 <= w < |s.workers| :: Holder(s.dispatched, s.workers[w]))
  }

  // ---------------------------------------------------------------- time

  predicate SortedRequests(rs: seq<Request>)
  {
    forall i, j | 0 <= i < j < |rs| :: rs[i].arrival.Micros() <= rs[j].arrival.Micros()
  }

  predicate SortedDispatches(ds: seq<Dispatch>)
  {
    forall i, j | 0 <= i < j < |ds| :: ds[i].at.Micros() <= ds[j].at.Micros()
  }

  predicate IntervalCorrect(ds: seq<Dispatch>, pc: WorkerPc)
  {
    pc.Handling? ==>
      && pc.k < |ds|
      && pc.req.arrival.Normal() && pc.req.arrival.sec >= 0
      && pc.interval.Normal() && pc.interval.sec >= 0
      && pc.req.arrival.Micros() + pc.interval.Micros() == ds[pc.k].at.Micros()
  }

  ghost predicate Times(s: State)
  {
    && s.clock.Normal() && s.clock.sec >= 0
    && SortedRequests(s.enqueued) && SortedDispatches(s.dispatched)
    && (forall i | 0 <= i < |s.enqueued| ::
          && s.enqueued[i].arrival.Normal() && s.enqueued[i].arrival.sec >= 0
          && s.enqueued[i].arrival.Micros() <= s.clock.Micros())
    && (forall i | 0 <= i < |s.dispatched| :: s.dispatched[i].at.Micros() <= s.clock.Micros())
    && (s.main.Enqueuing? || s.main.InnerAsleep? ==>
          && s.main.stamp.Normal() && s.main.stamp.sec >= 0 && s.main.stamp.Micros() <= s.clock.Micros()
          && forall i | 0 <= i < |s.enqueued| :: s.enqueued[i].arrival.Micros() <= s.main.stamp.Micros())
    && (forall w | 0 <= w < |s.workers| :: IntervalCorrect(s.dispatched, s.workers[w]))
  }

  /** The stamp of request `k` was taken after at least `k - capacity + 1` earlier releases. */
  ghost predicate BackPressure(s: State)
  {
    && |s.releasedAtStamp| == |s.enqueued| + Bit(s.main.Enqueuing? || s.main.InnerAsleep?)
    && forall k | 0 <= k < |s.releasedAtStamp| :: k + 1 <= s.releasedAtStamp[k] + s.ring.Capacity()
  }

  ghost predicate Inv(s: State)
  {
    && |s.workers| > 0
    && Slots(s) && Fifo(s) && ClosedOnce(s) && Times(s) && BackPressure(s)
  }

  // ---------------------------------------------------------------- initial states

  lemma InitInv(s: State)
    requires Init(s)
    ensures Inv(s)
  {
    SumZero(s.workers, BusyBit);
    SumZero(s.workers, AsleepBit);
    forall k: nat ensures Sum(s.workers, Handles(k)) == 0 {
      SumZero(s.workers, Handles(k));
    }
  }

  // ---------------------------------------------------------------- sums under updates

  lemma WorkerUpdate(ws: seq<WorkerPc>, w: nat, pc: WorkerPc)
    requires w < |ws|
    ensures Sum(ws[w := pc], BusyBit) == Sum(ws, BusyBit) - BusyBit(ws[w]) + BusyBit(pc)
    ensures Sum(ws[w := pc], AsleepBit) == Sum(ws, AsleepBit) - AsleepBit(ws[w]) + AsleepBit(pc)
    ensures Sum(ws[w := pc], WokenBit) == Sum(ws, WokenBit) - WokenBit(ws[w]) + WokenBit(pc)
  {
    SumUpdate(ws, w, pc, BusyBit);
    SumUpdate(ws, w, pc, AsleepBit);
    SumUpdate(ws, w, pc, WokenBit);
  }

  lemma WorkersNonNegative(ws: seq<WorkerPc>)
    ensures Sum(ws, BusyBit) >= 0 && Sum(ws, AsleepBit) >= 0 && Sum(ws, WokenBit) >= 0
  {
    SumNonNegative(ws, BusyBit);
    SumNonNegative(ws, AsleepBit);
    SumNonNegative(ws, WokenBit);
  }

  lemma WakeKeepsBusy(ws: seq<WorkerPc>, wake: set<nat>)
    ensures Sum(WakeWorkers(ws, wake), BusyBit) == Sum(ws, BusyBit)
    ensures Sum(WakeWorkers(ws, wake), AsleepBit) <= Sum(ws, AsleepBit)
  {
    SumSame(ws, WakeWorkers(ws, wake), BusyBit);
    SumMonotone(WakeWorkers(ws, wake), ws, AsleepBit);
  }

  /** A signal on not_empty wakes at least one worker if any is asleep. */
  lemma SignalWakesOne(ws: seq<WorkerPc>, wake: set<nat>)
    requires wake <= Sleepers(ws) && (Sleepers(ws) != {} ==> wake != {})
    ensures Sum(ws, AsleepBit) > 0 ==> Sum(WakeWorkers(ws, wake), WokenBit) >= Sum(ws, WokenBit) + 1
  {
    if Sum(ws, AsleepBit) > 0 {
      var i := SumWitness(ws, AsleepBit);
      assert i in Sleepers(ws);
      var j :| j in wake;
      assert ws[j] == Asleep;
      SumUpdate(ws, j, Woken, WokenBit);
      SumMonotone(ws[j := Woken], WakeWorkers(ws, wake), WokenBit);
    }
  }

  // ---------------------------------------------------------------- preservation, part by part

  lemma MainKeepsSlots(s: State, wake: set<nat>, now: Timeval)
    requires Slots(s) && Enabled(s, Main(wake, now))
    ensures Slots(MainStep(s, wake, now))
  {
    if Stores(s) {
      var req := Request(s.main.fd, s.main.stamp);
      PutAppends(s.ring, req);
      WakeKeepsBusy(s.workers, wake);
      WorkersNonNegative(s.workers);
      WorkersNonNegative(WakeWorkers(s.workers, wake));
      SignalWakesOne(s.workers, wake);
    }
  }

  lemma WorkerKeepsSlots(s: State, w: nat, now: Timeval)
    requires Slots(s) && Enabled(s, Worker(w, now))
    ensures Slots(WorkerStep(s, w, now))
  {
    var s' := WorkerStep(s, w, now);
    WorkerUpdate(s.workers, w, s'.workers[w]);
    WorkersNonNegative(s'.workers);
    assert s'.workers == s.workers[w := s'.workers[w]];
    if s.workers[w].Finishing? {
      ReleaseKeepsQueue(s.ring);
    } else if s.workers[w] in {Ready, Woken} && s.ring.queued > 0 {
      TakeRemovesFirst(s.ring);
    }
  }

  lemma SpuriousKeepsSlots(s: State, a: Action)
    requires Slots(s) && Enabled(s, a) && (a.SpuriousMain? || a.SpuriousWorker?)
    ensures Slots(Apply(s, a))
  {
    if a.SpuriousWorker? {
      WorkerUpdate(s.workers, a.w, Woken);
    }
  }

  lemma StepKeepsSlots(s: State, a: Action)
    requires Slots(s) && Enabled(s, a)
    ensures Slots(Apply(s, a))
  {
    match a
    case Main(wake, now) => MainKeepsSlots(s, wake, now);
    case Worker(w, now) => WorkerKeepsSlots(s, w, now);
    case SpuriousMain => SpuriousKeepsSlots(s, a);
    case SpuriousWorker(_) => SpuriousKeepsSlots(s, a);
  }

  lemma DescriptorsAppend(rs: seq<Request>, r: Request)
    ensures Descriptors(rs + [r]) == Descriptors(rs) + [r.connfd]
  {
  }

  lemma RequestsAppend(ds: seq<Dispatch>, d: Dispatch)
    ensures Requests(ds + [d]) == Requests(ds) + [d.req]
  {
  }

  lemma StepKeepsFifo(s: State, a: Action)
    requires Slots(s) && Fifo(s) && Enabled(s, a)
    ensures Fifo(Apply(s, a))
  {
    if a.Main? && Stores(s) {
      var req := Request(s.main.fd, s.main.stamp);
      PutAppends(s.ring, req);
      DescriptorsAppend(s.enqueued, req);
    } else if a.Worker? && s.workers[a.w] in {Ready, Woken} && s.ring.queued > 0 {
      TakeRemovesFirst(s.ring);
      RequestsAppend(s.dispatched, Dispatch(s.ring.First(), a.now));
    } else if a.Worker? && s.workers[a.w].Finishing? {
      FinishingIsBusy(s, a.w);
      ReleaseKeepsQueue(s.ring);
    }
  }

  lemma FinishingIsBusy(s: State, w: nat)
    requires Slots(s) && w < |s.workers| && (s.workers[w].Finishing? || s.workers[w].Handling?)
    ensures s.ring.queued < s.ring.size
  {
    SumAtLeast(s.workers, BusyBit, w);
  }

  /** How the workers change under one step: one worker moves, or some sleepers wake. */
  lemma StepKeepsClosedOnce(s: State, a: Action)
    requires ClosedOnce(s) && Enabled(s, a)
    ensures ClosedOnce(Apply(s, a))
  {
    var s' := Apply(s, a);
    forall k: nat ensures s'.closed[k] + Sum(s'.workers, Handles(k)) == if k < |s'.dispatched| then 1 else 0 {
      StepKeepsCloseCount(s, a, k);
    }
    StepKeepsHolders(s, a);
  }

  lemma StepKeepsCloseCount(s: State, a: Action, k: nat)
    requires ClosedOnce(s) && Enabled(s, a)
    ensures var s' := Apply(s, a);
            s'.closed[k] + Sum(s'.workers, Handles(k)) == if k < |s'.dispatched| then 1 else 0
  {
    match a
    case Main(wake, now) => MainKeepsCloseCount(s, wake, now, k);
    case Worker(w, now) => WorkerKeepsCloseCount(s, w, now, k);
    case SpuriousMain =>
    case SpuriousWorker(w) => SumUpdate(s.workers, w, Woken, Handles(k));
  }

  lemma MainKeepsCloseCount(s: State, wake: set<nat>, now: Timeval, k: nat)
    requires Enabled(s, Main(wake, now))
    ensures var s' := MainStep(s, wake, now);
            && s'.closed == s.closed && s'.dispatched == s.dispatched
            && Sum(s'.workers, Handles(k)) == Sum(s.workers, Handles(k))
  {
    if Stores(s) {
      SumSame(s.workers, WakeWorkers(s.workers, wake), Handles(k));
    }
  }

  lemma WorkerKeepsCloseCount(s: State, w: nat, now: Timeval, k: nat)
    requires ClosedOnce(s) && Enabled(s, Worker(w, now))
    ensures var s' := WorkerStep(s, w, now);
            s'.closed[k] + Sum(s'.workers, Handles(k)) == if k < |s'.dispatched| then 1 else 0
  {
    SumUpdate(s.workers, w, WorkerStep(s, w, now).workers[w], Handles(k));
  }

  lemma StepKeepsHolders(s: State, a: Action)
    requires (forall w | 0 <= w < |s.workers| :: Holder(s.dispatched, s.workers[w])) && Enabled(s, a)
    ensures var s' := Apply(s, a); forall w | 0 <= w < |s'.workers| :: Holder(s'.dispatched, s'.workers[w])
  {
    match a
    case Main(wake, now) =>
    case Worker(w, now) => WorkerKeepsHolders(s, w, now);
    case SpuriousMain =>
    case SpuriousWorker(_) =>
  }

  lemma WorkerKeepsHolders(s: State, w: nat, now: Timeval)
    requires (forall w | 0 <= w < |s.workers| :: Holder(s.dispatched, s.workers[w])) && Enabled(s, Worker(w, now))
    ensures var s' := WorkerStep(s, w, now); forall w | 0 <= w < |s'.workers| :: Holder(s'.dispatched, s'.workers[w])
  {
  }

  lemma MainKeepsTimes(s: State, wake: set<nat>, now: Timeval)
    requires Times(s) && Enabled(s, Main(wake, now))
    ensures Times(MainStep(s, wake, now))
  {
    if Stores(s) {
      StoringKeepsTimes(s, wake, now);
    }
  }

  lemma StoringKeepsTimes(s: State, wake: set<nat>, now: Timeval)
    requires Times(s) && Enabled(s, Main(wake, now)) && Stores(s)
    ensures Times(MainStep(s, wake, now))
  {
    StampKeepsOrder(s.enqueued, Request(s.main.fd, s.main.stamp));
    WakeKeepsIntervals(s.dispatched, s.workers, wake);
  }

  lemma StampKeepsOrder(rs: seq<Request>, r: Request)
    requires SortedRequests(rs) && forall i | 0 <= i < |rs| :: rs[i].arrival.Micros() <= r.arrival.Micros()
    ensures SortedRequests(rs + [r])
  {
  }

  lemma WakeKeepsIntervals(ds: seq<Dispatch>, ws: seq<WorkerPc>, wake: set<nat>)
    requires forall w | 0 <= w < |ws| :: IntervalCorrect(ds, ws[w])
    ensures forall w | 0 <= w < |ws| :: IntervalCorrect(ds, WakeWorkers(ws, wake)[w])
  {
  }

  lemma WorkerKeepsTimes(s: State, w: nat, now: Timeval)
    requires Times(s) && Fifo(s) && Enabled(s, Worker(w, now))
    ensures Times(WorkerStep(s, w, now))
  {
    if s.workers[w] in {Ready, Woken} && s.ring.queued > 0 {
      DequeueKeepsTimes(s, w, now);
    }
  }

  lemma DequeueKeepsTimes(s: State, w: nat, now: Timeval)
    requires Times(s) && Fifo(s) && Enabled(s, Worker(w, now))
    requires s.workers[w] in {Ready, Woken} && s.ring.queued > 0
    ensures Times(WorkerStep(s, w, now))
  {
    var req := s.ring.First();
    assert req == s.ring.Queue()[0];
    assert req == s.enqueued[|s.dispatched|];
    TimerSubIsDifference(now, req.arrival);
  }

  lemma StepKeepsTimes(s: State, a: Action)
    requires Times(s) && Fifo(s) && Enabled(s, a)
    ensures Times(Apply(s, a))
  {
    match a
    case Main(wake, now) => MainKeepsTimes(s, wake, now);
    case Worker(w, now) => WorkerKeepsTimes(s, w, now);
    case SpuriousMain =>
    case SpuriousWorker(_) =>
  }

  lemma StepKeepsBackPressure(s: State, a: Action)
    requires Slots(s) && BackPressure(s) && Enabled(s, a)
    ensures BackPressure(Apply(s, a))
  {
  }

  lemma StepKeepsInv(s: State, a: Action)
    requires Inv(s) && Enabled(s, a)
    ensures Inv(Apply(s, a))
  {
    StepKeepsSlots(s, a);
    StepKeepsFifo(s, a);
    StepKeepsClosedOnce(s, a);
    StepKeepsTimes(s, a);
    StepKeepsBackPressure(s, a);
  }
}
