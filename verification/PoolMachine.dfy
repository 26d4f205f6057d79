/** The accept loop and the worker pool as a step system (server.c): one producer, any number of
    workers, one mutex, two condition variables.

    Every locked section ends before anything blocks outside `pthread_cond_wait`, so each pass
    through a section is one step. `gettimeofday` returns any instant not before the previous one. */
module PoolMachine {
  import opened Clock
  import opened BoundedQueue

  datatype MainPc =
    | Accepting
    | OuterTest(fd: int)                      // accepted; next: the test of the loop in main
    | OuterAsleep(fd: int)                    // asleep on not_full in main
    | Stamping(fd: int)                       // next: gettimeofday for the arrival stamp
    | Enqueuing(fd: int, stamp: Timeval)      // next: the locked section of enqueue
    | InnerAsleep(fd: int, stamp: Timeval)    // asleep on not_full in enqueue

  /** `k` numbers requests in dispatch order. */
  datatype WorkerPc =
    | Ready                                   // next: the locked section of dequeue
    | Asleep                                  // asleep on not_empty
    | Woken                                   // out of the wait set, not yet run
    | Handling(k: nat, req: Request, interval: Timeval)
    | Finishing(k: nat)                       // connection closed; next: finishHandling

  datatype Dispatch = Dispatch(req: Request, at: Timeval)

  /** `conns` are the connections still to arrive. The remaining fields record what has happened:
      descriptors accepted, requests enqueued, requests dispatched, how often each request's
      connection was closed, slots released, and for each arrival stamp how many requests had been
      released when it was taken. */
  datatype State = State(
    ring: Ring,
    main: MainPc,
    workers: seq<WorkerPc>,
    conns: seq<int>,
    clock: Timeval,
    spurious: nat,
    accepted: seq<int>,
    enqueued: seq<Request>,
    dispatched: seq<Dispatch>,
    closed: multiset<nat>,
    released: nat,
    releasedAtStamp: seq<nat>)

  datatype Action =
    | Main(wake: set<nat>, now: Timeval)
    | Worker(w: nat, now: Timeval)
    | SpuriousMain
    | SpuriousWorker(w: nat)

  ghost predicate Init(s: State)
  {
    && s.ring.Ok() && s.ring.size == 0 && s.ring.front == 0
    && s.main == Accepting
    && |s.workers| > 0 && (forall w | 0 <= w < |s.workers| :: s.workers[w] == Ready)
    && s.clock.Normal() && s.clock.sec >= 0
    && s.accepted == [] && s.enqueued == [] && s.dispatched == []
    && s.closed == multiset{} && s.released == 0 && s.releasedAtStamp == []
  }

  // ---------------------------------------------------------------- wait sets

  function Sleepers(ws: seq<WorkerPc>): set<nat>
  {
    set w: nat | w < |ws| && ws[w] == Asleep
  }

  function WakeWorkers(ws: seq<WorkerPc>, wake: set<nat>): (r: seq<WorkerPc>)
    ensures |r| == |ws|
    ensures forall w | 0 <= w < |ws| :: r[w] == if w in wake && ws[w] == Asleep then Woken else ws[w]
  {
    seq(|ws|, w requires 0 <= w < |ws| => if w in wake && ws[w] == Asleep then Woken else ws[w])
  }

  predicate MainAsleep(pc: MainPc)
  {
    pc.OuterAsleep? || pc.InnerAsleep?
  }

  function WakeMain(pc: MainPc): MainPc
  {
    match pc
    case OuterAsleep(fd) => OuterTest(fd)
    case InnerAsleep(fd, stamp) => Enqueuing(fd, stamp)
    case _ => pc
  }

  // ---------------------------------------------------------------- steps

  predicate TimePasses(s: State, now: Timeval)
  {
    now.Normal() && s.clock.Micros() <= now.Micros()
  }

  /** Does main's next step store a request and signal not_empty? */
  predicate Stores(s: State)
  {
    s.main.Enqueuing? && !s.ring.Full()
  }

  predicate Enabled(s: State, a: Action)
  {
    match a
    case Main(wake, now) =>
      && TimePasses(s, now)
      && !MainAsleep(s.main)
      && (s.main == Accepting ==> s.conns != [])
      && (s.main.Enqueuing? ==> s.ring.rear < s.ring.Capacity())
      && (if Stores(s) then wake <= Sleepers(s.workers) && (Sleepers(s.workers) != {} ==> wake != {}) else wake == {})
    case Worker(w, now) =>
      && TimePasses(s, now)
      && w < |s.workers| && s.workers[w] != Asleep
      && (s.workers[w] in {Ready, Woken} && s.ring.queued > 0 ==> s.ring.front < s.ring.Capacity())
      && (s.workers[w].Finishing? ==> s.ring.size > 0)
    case SpuriousMain => s.spurious > 0 && MainAsleep(s.main)
    case SpuriousWorker(w) => s.spurious > 0 && w < |s.workers| && s.workers[w] == Asleep
  }

  function MainStep(s: State, wake: set<nat>, now: Timeval): State
    requires Enabled(s, Main(wake, now))
  {
    match s.main
    case Accepting =>
      s.(main := OuterTest(s.conns[0]), conns := s.conns[1..], accepted := s.accepted + [s.conns[0]])
    case OuterTest(fd) =>
      s.(main := if s.ring.Full() then OuterAsleep(fd) else Stamping(fd))
    case OuterAsleep(_) => s
    case Stamping(fd) =>
      s.(main := Enqueuing(fd, now), clock := now, releasedAtStamp := s.releasedAtStamp + [s.released])
    case Enqueuing(fd, stamp) =>
      if s.ring.Full() then s.(main := InnerAsleep(fd, stamp))
      else
        s.(main := Accepting,
           ring := s.ring.Put(Request(fd, stamp)),
           enqueued := s.enqueued + [Request(fd, stamp)],
           workers := WakeWorkers(s.workers, wake))
    case InnerAsleep(_, _) => s
  }

  function SetWorker(s: State, w: nat, pc: WorkerPc): State
    requires w < |s.workers|
  {
    s.(workers := s.workers[w := pc])
  }

  function Dequeue(s: State, w: nat, now: Timeval): State
    requires w < |s.workers| && s.ring.front < s.ring.Capacity() && s.ring.queued > 0
  {
    var req := s.ring.First();
    SetWorker(s, w, Handling(|s.dispatched|, req, TimerSub(now, req.arrival)))
      .(ring := s.ring.Take(), dispatched := s.dispatched + [Dispatch(req, now)], clock := now)
  }

  function WorkerStep(s: State, w: nat, now: Timeval): State
    requires Enabled(s, Worker(w, now))
  {
    match s.workers[w]
    case Ready => if s.ring.queued == 0 then SetWorker(s, w, Asleep) else Dequeue(s, w, now)
    case Woken => if s.ring.queued == 0 then SetWorker(s, w, Asleep) else Dequeue(s, w, now)
    case Asleep => s
    case Handling(k, _, _) => SetWorker(s, w, Finishing(k)).(closed := s.closed + multiset{k})
    case Finishing(_) =>
      SetWorker(s, w, Ready).(ring := s.ring.Release(), released := s.released + 1, main := WakeMain(s.main))
  }

  function Apply(s: State, a: Action): State
    requires Enabled(s, a)
  {
    match a
    case Main(wake, now) => MainStep(s, wake, now)
    case Worker(w, now) => WorkerStep(s, w, now)
    case SpuriousMain => s.(main := WakeMain(s.main), spurious := s.spurious - 1)
    case SpuriousWorker(w) => SetWorker(s, w, Woken).(spurious := s.spurious - 1)
  }

  ghost predicate Next(s: State, s': State)
  {
    exists a :: Enabled(s, a) && s' == Apply(s, a)
  }
}
