/** Every maximal run of the whole server comes to rest, and which connections it has served by then. */
module ServerLiveness {
  import opened Sums
  import opened Runs
  import P = PoolMachine
  import PI = PoolInvariant
  import PT = PoolTheorems
  import L = LogMachine
  import LD = LogData
  import LS = LogSafety
  import LL = LogLiveness
  import opened Format
  import opened Records
  import opened RequestLine
  import opened ServerMachine
  import opened ServerInvariant
  import opened ServerRequests
  import opened ServerTheorems
  import opened ServerRecords
  import opened ServerPosts

  // ---------------------------------------------------------------- where it can stop

  /** Worker `w` sleeps on not_empty, or is in a header loop that does not end. */
  ghost predicate AtRest(s: State, w: nat)
    requires w < |s.pool.workers| && w < |s.workers|
  {
    var pc := s.pool.workers[w];
    pc == P.Asleep || (pc.Handling? && s.workers[w].phase.Counted? && s.inputs(pc.k).Endless())
  }

  /** Everybody is asleep or caught in a header loop, the log is idle and main cannot go on. */
  ghost predicate Resting(s: State)
  {
    && |s.workers| == |s.pool.workers|
    && LL.Finished(s.log) && PT.Settled(s.pool)
    && forall w: nat | w < |s.pool.workers| :: AtRest(s, w)
  }

  lemma StuckLog(s: State)
    requires Inv(s) && Stuck(s, Next)
    ensures LL.Finished(s.log)
  {
    if l' :| L.Next(s.log, l') {
      var l :| L.Enabled(s.log, l) && l' == L.Apply(s.log, l);
      NothingIsEnabled(s, LogStep(l));
    } else {
      LL.StuckMeansFinished(s.log);
    }
  }

  /** The method of a request always leaves some outcome possible. */
  function SomeOutcome(i: Input): (o: Outcome)
    ensures i.Allows(o)
  {
    if i.stream == [] then NoLine
    else if i.Get() then NotFound
    else if i.Post() then Post
    else Unsupported
  }

  /** Inside requestHandle a worker can go on unless its header loop does not end. */
  lemma HandlerCanGoOn(s: State, w: nat) returns (o: Outcome)
    requires Sized(s) && w < |s.workers| && WorkerFine(s, w) && TracedAt(s, w) && LL.Finished(s.log)
    requires s.pool.workers[w].Handling? && s.workers[w].phase != Returned
    requires s.workers[w].phase.Counted? ==> !s.inputs(s.pool.workers[w].k).Endless()
    ensures CanHandle(s, w, o)
  {
    var phase := s.workers[w].phase;
    o := if phase.Reading? then SomeOutcome(s.inputs(phase.k)) else NoLine;
    if phase.Counted? {
      assert s.inputs(s.pool.workers[w].k).Allows(phase.o);
    }
  }

  lemma HandlerCanMove(s: State, w: nat) returns (a: Action)
    requires Full(s) && LL.Finished(s.log) && w < |s.workers| && s.pool.workers[w].Handling?
    requires s.workers[w].phase.Counted? ==> !s.inputs(s.pool.workers[w].k).Endless()
    ensures Enabled(s, a)
  {
    assert WorkerFine(s, w) && TracedAt(s, w);
    if s.workers[w].phase == Returned {
      PT.WorkerCanMove(s.pool, w);
      a := PoolStep(P.Worker(w, s.pool.clock));
    } else {
      var o := HandlerCanGoOn(s, w);
      a := Handle(w, o);
    }
  }

  lemma NothingIsEnabled(s: State, a: Action)
    requires Stuck(s, Next)
    ensures !Enabled(s, a)
  {
    if Enabled(s, a) {
      assert Next(s, Apply(s, a));
    }
  }

  lemma StuckWorkerRests(s: State, w: nat)
    requires Full(s) && Stuck(s, Next) && LL.Finished(s.log) && w < |s.workers|
    ensures AtRest(s, w)
  {
    var pc := s.pool.workers[w];
    if pc.Handling? {
      if !AtRest(s, w) {
        var a := HandlerCanMove(s, w);
        NothingIsEnabled(s, a);
      }
    } else if pc != P.Asleep {
      PT.WorkerCanMove(s.pool, w);
      NothingIsEnabled(s, PoolStep(P.Worker(w, s.pool.clock)));
    }
  }

  /** The server can stop only at rest. */
  lemma StuckMeansResting(s: State)
    requires Full(s) && Stuck(s, Next)
    ensures Resting(s)
  {
    StuckLog(s);
    forall w: nat | w < |s.pool.workers|
      ensures AtRest(s, w) && (s.pool.workers[w] == P.Asleep || s.pool.workers[w].Handling?)
    {
      StuckWorkerRests(s, w);
    }
    if !P.MainAsleep(s.pool.main) && !(s.pool.main == P.Accepting && s.pool.conns == []) {
      var p := PT.MainCanMove(s.pool);
      NothingIsEnabled(s, PoolStep(p));
    }
  }

  // ---------------------------------------------------------------- the rank

  function PhaseWork(wk: Worker): int
  {
    match wk.phase
    case Outside => 0
    case Returned => 0
    case InLog => 1
    case Fetching => 2
    case Appending(_) => 2
    case Serving(_, _) => 3
    case Counted(_) => 4
    case Reading(_) => 5
  }

  function HandlingWork(ws: seq<Worker>): (n: nat)
  {
    SumNonNegative(ws, PhaseWork);
    Sum(ws, PhaseWork)
  }

  /** Spurious wakeups first, then the pool's work, then that of the handlers, then the log's. */
  function ServerRank(s: State): Rank
  {
    Rank(s.pool.spurious + s.log.spurious, PT.Work(s.pool), HandlingWork(s.workers), LL.Work(s.log), LL.Bytes(s.log))
  }

  lemma HandleLowersRank(s: State, w: nat, o: Outcome)
    requires CanHandle(s, w, o)
    ensures ServerRank(s).Above(ServerRank(HandleStep(s, w, o)))
  {
    var s' := HandleStep(s, w, o);
    HandleLowersPhase(s, w, o);
    SumUpdate(s.workers, w, s'.workers[w], PhaseWork);
  }

  lemma HandleLowersPhase(s: State, w: nat, o: Outcome)
    requires CanHandle(s, w, o)
    ensures var s' := HandleStep(s, w, o);
            && s'.pool == s.pool && s'.log.spurious == s.log.spurious
            && |s'.workers| == |s.workers| && s'.workers == s.workers[w := s'.workers[w]]
            && PhaseWork(s'.workers[w]) < PhaseWork(s.workers[w])
  {
  }

  lemma PoolLowersRank(s: State, p: P.Action)
    requires Enabled(s, PoolStep(p))
    ensures ServerRank(s).Above(ServerRank(Apply(s, PoolStep(p))))
  {
    PT.StepLowersRank(s.pool, p);
  }

  lemma LogLowersRank(s: State, l: L.Action)
    requires Inv(s) && L.Enabled(s.log, l)
    ensures ServerRank(s).Above(ServerRank(s.(log := L.Apply(s.log, l))))
  {
    LL.StepLowersRank(s.log, l);
  }

  lemma NextLowersRank(s: State, s': State)
    requires Full(s) && Next(s, s')
    ensures Full(s') && ServerRank(s).Above(ServerRank(s'))
  {
    var a :| Enabled(s, a) && s' == Apply(s, a);
    StepKeepsFull(s, a);
    match a
    case PoolStep(p) => PoolLowersRank(s, p);
    case LogStep(l) => LogLowersRank(s, l);
    case Handle(w, o) => HandleLowersRank(s, w, o);
  }

  // ---------------------------------------------------------------- what stays the same

  /** The batch, what its connections bring, and the numbers of workers and slots. */
  ghost predicate SameServer(s: State, s': State)
  {
    && PT.Batch(s'.pool) == PT.Batch(s.pool) && s'.inputs == s.inputs
    && |s'.pool.workers| == |s.pool.workers| && s'.pool.ring.Capacity() == s.pool.ring.Capacity()
  }

  lemma StepKeepsServer(s: State, a: Action)
    requires Enabled(s, a)
    ensures SameServer(s, Apply(s, a))
  {
    match a
    case PoolStep(p) =>
      PT.StepKeepsBatch(s.pool, p);
      PoolFrame(s.pool, p);
    case LogStep(_) =>
    case Handle(w, o) => HandleFrame(s, w, o);
  }

  lemma {:induction false} ServerOnMaximalRun(run: nat -> State, i: nat)
    requires MaximalRun(run, Next)
    ensures SameServer(run(0), run(i))
  {
    if i > 0 {
      ServerOnMaximalRun(run, i - 1);
      assert MovesAt(run, Next, i - 1);
      if run(i) != run(i - 1) {
        var a :| Enabled(run(i - 1), a) && run(i) == Apply(run(i - 1), a);
        StepKeepsServer(run(i - 1), a);
      }
    }
  }

  // ---------------------------------------------------------------- who has been served at rest

  /** If only endless requests are held, each by one worker, no more workers are handling requests than
      there are endless requests. */
  lemma {:induction false} HeldAreEndless(inputs: nat -> Input, ws: seq<P.WorkerPc>, n: nat)
    requires forall k: nat :: Sum(ws, PI.Handles(k)) <= if k < n && inputs(k).Endless() then 1 else 0
    ensures Sum(ws, PI.HandlingBit) <= EndlessCount(inputs, n)
    decreases n
  {
    if w :| 0 <= w < |ws| && ws[w].Handling? && (n == 0 || ws[w].k >= n - 1) {
      var k := ws[w].k;
      SumAtLeast(ws, PI.Handles(k), w);
      var ws' := ws[w := P.Ready];
      forall j: nat ensures Sum(ws', PI.Handles(j)) <= if j < n - 1 && inputs(j).Endless() then 1 else 0 {
        SumUpdate(ws, w, P.Ready, PI.Handles(j));
      }
      SumUpdate(ws, w, P.Ready, PI.HandlingBit);
      HeldAreEndless(inputs, ws', n - 1);
    } else if n == 0 {
      SumZero(ws, PI.HandlingBit);
    } else {
      forall j: nat ensures Sum(ws, PI.Handles(j)) <= if j < n - 1 && inputs(j).Endless() then 1 else 0 {
        if j >= n - 1 {
          SumZero(ws, PI.Handles(j));
        }
      }
      HeldAreEndless(inputs, ws, n - 1);
    }
  }

  lemma HeldAtRest(s: State)
    requires Full(s) && Resting(s)
    ensures Sum(s.pool.workers, PI.HandlingBit) <= EndlessCount(s.inputs, |s.pool.dispatched|)
  {
    forall k: nat
      ensures Sum(s.pool.workers, PI.Handles(k)) <= if k < |s.pool.dispatched| && s.inputs(k).Endless() then 1 else 0
    {
      ClosedAtRest(s, k);
    }
    HeldAreEndless(s.inputs, s.pool.workers, |s.pool.dispatched|);
  }

  /** At rest a dispatched request is closed unless it is endless, and then a worker holds it. */
  lemma ClosedAtRest(s: State, k: nat)
    requires Full(s) && Resting(s)
    ensures s.pool.closed[k] == if k < |s.pool.dispatched| && !s.inputs(k).Endless() then 1 else 0
    ensures Sum(s.pool.workers, PI.Handles(k)) == if k < |s.pool.dispatched| && s.inputs(k).Endless() then 1 else 0
  {
    SumNonNegative(s.pool.workers, PI.Handles(k));
    if Sum(s.pool.workers, PI.Handles(k)) > 0 {
      var w := SumWitness(s.pool.workers, PI.Handles(k));
      assert AtRest(s, w);
    }
    if s.pool.closed[k] > 0 {
      ClosedIsNotEndless(s, k);
    }
  }

  /** Connection `k` gets through to a worker: fewer connections before it are endless than there are
      workers, and than there are slots. */
  ghost predicate GetsThrough(s: State, k: nat)
  {
    EndlessCount(s.inputs, k) < |s.pool.workers| && EndlessCount(s.inputs, k) < s.pool.ring.Capacity()
  }

  lemma DispatchedAtRest(s: State, k: nat)
    requires Full(s) && Resting(s) && k < |PT.Batch(s.pool)|
    ensures k < |s.pool.dispatched| <==> GetsThrough(s, k)
  {
    if k >= |s.pool.dispatched| && GetsThrough(s, k) {
      HeldAtRest(s);
      EndlessGrows(s.inputs, |s.pool.dispatched|, k);
      PT.SettledMeansServed(s.pool);
      PT.DispatchedFollowsBatch(s.pool);
    }
  }

  // ---------------------------------------------------------------- every run

  lemma EveryRunRests(run: nat -> State) returns (n: nat)
    requires MaximalRun(run, Next) && Full(run(0))
    ensures Full(run(n)) && Resting(run(n)) && Stuck(run(n), Next)
    ensures forall i | 0 < i <= n :: SteppedAt(run, Next, i)
  {
    forall s, s' | Full(s) && Next(s, s') ensures Full(s') && ServerRank(s).Above(ServerRank(s')) {
      NextLowersRank(s, s');
    }
    n := MaximalRunStops(run, Next, Full, ServerRank, 0);
    StuckMeansResting(run(n));
  }

  /** By the end of the run request `k` has been served as it should: it turned out as its method says, has
      exactly one entry in the log if it turned out static or dynamic and none otherwise, and got exactly one
      answer from the log if it turned out a POST and none otherwise, while its connection was handled. */
  ghost predicate ServedRight(run: seq<State>, k: nat)
    requires |run| > 0
  {
    var s := run[|run| - 1];
    && RecordedRight(s, k) && AnsweredRight(s, k)
    && (forall v: nat, o | HandledAs(s, v, k, o) :: s.inputs(k).Allows(o))
    && (forall i: nat, u: nat | AnswerFor(s, i, u, k) :: GivenInTime(run, i, u, k))
  }

  lemma ClosedIsServedRight(run: seq<State>, k: nat)
    requires FiniteRun(run, Init, Next) && run[|run| - 1].pool.closed[k] > 0
    ensures ServedRight(run, k)
  {
    var n := |run| - 1;
    ReachableFull(run, n);
    ClosedIsRecordedRight(run[n], k);
    PostsAreAnswered(run, n, k);
    forall v: nat, o | HandledAs(run[n], v, k, o) ensures run[n].inputs(k).Allows(o) {
      HandledIsAllowed(run[n], v, k, o);
    }
  }

  /** For any batch of connections, whatever they bring, any number of workers, any capacity, any outcome
      of every request and any budget of spurious wakeups, every maximal run of the whole server, log
      included, comes to rest; and then, for every connection of the batch:
      it has been dispatched, in its turn, iff it gets through the endless ones before it, and it has been
      closed, once, iff besides it is not endless itself, and then it has been
      served as it should, its record or its answer included. */
  lemma ConnectionsServed(run: nat -> State) returns (n: nat)
    requires MaximalRun(run, Next) && Init(run(0))
    ensures Full(run(n)) && Resting(run(n)) && Stuck(run(n), Next)
    ensures |run(n).pool.dispatched| <= |run(0).pool.conns|
    ensures forall k | 0 <= k < |run(n).pool.dispatched| ::
              run(n).pool.dispatched[k].req.connfd == run(0).pool.conns[k]
    ensures forall k: nat | k < |run(0).pool.conns| ::
              k < |run(n).pool.dispatched| <==> GetsThrough(run(0), k)
    ensures forall k: nat :: run(n).pool.closed[k] ==
              if k < |run(0).pool.conns| && GetsThrough(run(0), k) && !run(0).inputs(k).Endless() then 1 else 0
    ensures FiniteRun(Prefix(run, n), Init, Next)
    ensures forall k: nat | run(n).pool.closed[k] > 0 :: ServedRight(Prefix(run, n), k)
  {
    InitFull(run(0));
    n := EveryRunRests(run);
    ServerOnMaximalRun(run, n);
    RestingHasServed(run(n), run(0), run(0).pool.conns);
    PrefixIsFiniteRun(run, Init, Next, n);
    forall k: nat | run(n).pool.closed[k] > 0 ensures ServedRight(Prefix(run, n), k) {
      ClosedIsServedRight(Prefix(run, n), k);
    }
  }

  lemma RestingHasServed(s: State, s0: State, batch: seq<int>)
    requires Full(s) && Resting(s) && SameServer(s0, s) && PT.Batch(s0.pool) == batch
    ensures |s.pool.dispatched| <= |batch|
    ensures forall k | 0 <= k < |s.pool.dispatched| :: s.pool.dispatched[k].req.connfd == batch[k]
    ensures forall k: nat | k < |batch| :: k < |s.pool.dispatched| <==> GetsThrough(s0, k)
    ensures forall k: nat :: s.pool.closed[k] ==
              if k < |batch| && GetsThrough(s0, k) && !s0.inputs(k).Endless() then 1 else 0
  {
    PT.DispatchedFollowsBatch(s.pool);
    forall k: nat | k < |batch| ensures k < |s.pool.dispatched| <==> GetsThrough(s0, k) {
      DispatchedAtRest(s, k);
    }
    forall k: nat
      ensures s.pool.closed[k] == if k < |s.pool.dispatched| && !s0.inputs(k).Endless() then 1 else 0
    {
      ClosedAtRest(s, k);
    }
  }

  lemma {:induction false} NoneEndless(inputs: nat -> Input, n: nat)
    requires forall k: nat | k < n :: !inputs(k).Endless()
    ensures EndlessCount(inputs, n) == 0
  {
    if n > 0 {
      NoneEndless(inputs, n - 1);
    }
  }

  /** If every header of the batch comes to an end, every maximal run serves the whole batch: dispatched in
      order, each connection read by one worker once, closed once and, if it turned out static or dynamic and
      only then, recorded in one entry of the log; every worker asleep, nothing queued or
      in service, main back in accept, and the log decodes to exactly the records that were formatted. */
  lemma EveryConnectionIsServed(run: nat -> State) returns (n: nat, rs: seq<Record>)
    requires MaximalRun(run, Next) && Init(run(0))
    requires forall k: nat | k < |run(0).pool.conns| :: !run(0).inputs(k).Endless()
    ensures Stuck(run(n), Next) && PT.Quiescent(run(n).pool) && LL.Finished(run(n).log)
    ensures |run(n).pool.dispatched| == |run(0).pool.conns|
    ensures forall k | 0 <= k < |run(0).pool.conns| ::
              run(n).pool.dispatched[k].req.connfd == run(0).pool.conns[k]
    ensures forall k: nat :: run(n).pool.closed[k] == if k < |run(0).pool.conns| then 1 else 0
    ensures forall k: nat | k < |run(0).pool.conns| :: Sum(run(n).workers, ReadBy(k)) == 1
    ensures forall k: nat | k < |run(0).pool.conns| :: ServedRight(Prefix(run, n), k)
    ensures forall w: nat | w < |run(n).workers| :: HasAllRecords(run(n), w)
    ensures |run(n).log.history| == Served(run(n).workers, |run(n).workers|)
    ensures Decode(LD.Text(run(n).log.history)) == Some(rs)
    ensures |rs| == |run(n).log.history| && forall e: nat | e < |rs| :: EntryIs(run(n), e, rs[e])
  {
    n := ConnectionsServed(run);
    rs := LogAtRest(run(n));
    forall k: nat | k < |run(0).pool.conns| ensures GetsThrough(run(0), k) {
      NoneEndless(run(0).inputs, k);
    }
    ServerOnMaximalRun(run, n);
    NobodyHeldMeansQuiescent(run(n));
    forall k: nat | k < |run(0).pool.conns| ensures Sum(run(n).workers, ReadBy(k)) == 1 {
      RestingHasRead(run(n), k);
    }
  }

  /** One unfinished request ahead of all others and a single worker: nobody is ever served. */
  lemma OneUnfinishedRequestBlocksAll(run: nat -> State) returns (n: nat)
    requires MaximalRun(run, Next) && Init(run(0))
    requires |run(0).workers| == 1 && run(0).inputs(0) == Input("GET\nx", false)
    ensures Stuck(run(n), Next) && forall k: nat :: run(n).pool.closed[k] == 0
  {
    n := ConnectionsServed(run);
    UnfinishedGetIsEndless();
    assert EndlessCount(run(0).inputs, 1) == 1;
    forall k: nat ensures run(n).pool.closed[k] == 0 {
      if k > 0 {
        EndlessGrows(run(0).inputs, 1, k);
      }
    }
  }

  /** At rest the log holds, worker by worker, exactly the records formatted, in order, as many as the
      counters and undone requests say, and decodes to them. */
  lemma LogAtRest(s: State) returns (rs: seq<Record>)
    requires Full(s) && Resting(s)
    ensures forall w: nat | w < |s.workers| :: HasAllRecords(s, w)
    ensures |s.log.history| == Served(s.workers, |s.workers|)
    ensures LD.Holds(s.log.buffer, s.log.usage, LD.Text(s.log.history))
    ensures Decode(LD.Text(s.log.history)) == Some(rs) && |rs| == |s.log.history|
    ensures forall e: nat | e < |rs| :: EntryIs(s, e, rs[e])
  {
    forall w: nat | w < |s.workers| ensures HasAllRecords(s, w) && NothingToSend(s, w) {
      RestingWorkerHasSent(s, w);
    }
    AccountsAddUp(s, |s.workers|);
    WrittenIsAll(s.log.history, |s.workers|);
    NothingPending(s, |s.workers|);
    LL.FinishedHolds(s.log);
    rs := EntriesAreBlocks(s, |s.log.history|);
    assert s.log.history[..|s.log.history|] == s.log.history;
    DecodeUndoesBlocks(rs);
  }

  ghost predicate HasAllRecords(s: State, w: nat)
    requires w < |s.workers|
  {
    && (forall m | 0 <= m < |s.workers[w].formatted| :: s.workers[w].formatted[m].rec.Printable())
    && LS.Mine(s.log.history, w) == Texts(s.workers[w].formatted)
  }

  /** Worker `w` has no append under way or to come. */
  ghost predicate NothingToSend(s: State, w: nat)
  {
    && w < |s.workers| && w < |s.log.threads|
    && LS.Appends(s.log.threads[w].todo) == [] && Unsent(s.workers[w].phase) == []
  }

  lemma RestingWorkerHasSent(s: State, w: nat)
    requires Full(s) && Resting(s) && w < |s.workers|
    ensures HasAllRecords(s, w) && NothingToSend(s, w)
  {
    assert WorkerFine(s, w) && TracedAt(s, w) && AtRest(s, w);
    RestingPhase(s, w);
    assert s.log.threads[w].todo == [];
    assert LS.Mine(s.log.history, w) + [] + [] == LS.Mine(s.log.history, w);
  }

  /** A resting worker is outside, or at a header loop. */
  lemma RestingPhase(s: State, w: nat)
    requires Sized(s) && w < |s.workers| && WorkerFine(s, w) && TracedAt(s, w) && AtRest(s, w)
    ensures Unsent(s.workers[w].phase) == []
  {
  }

  lemma {:induction false} NothingPending(s: State, n: nat)
    requires n <= |s.workers| && n <= |s.log.threads| && forall w: nat | w < n :: NothingToSend(s, w)
    ensures Pending(s, n) == 0
  {
    if n > 0 {
      NothingPending(s, n - 1);
      assert NothingToSend(s, n - 1);
    }
  }

  lemma NobodyHeldMeansQuiescent(s: State)
    requires Full(s) && Resting(s)
    requires forall k: nat | k < |s.pool.dispatched| :: !s.inputs(k).Endless()
    ensures PT.Quiescent(s.pool)
  {
    NoneEndless(s.inputs, |s.pool.dispatched|);
    HeldAtRest(s);
    SumNonNegative(s.pool.workers, PI.HandlingBit);
    PT.SettledMeansServed(s.pool);
    forall w: nat | w < |s.pool.workers| ensures s.pool.workers[w] == P.Asleep {
      assert AtRest(s, w);
      if s.pool.workers[w].Handling? {
        SumAtLeast(s.pool.workers, PI.HandlingBit, w);
      }
    }
  }

  /** How often the worker has read the request line of connection `k`. */
  function ReadBy(k: nat): Worker -> int
  {
    (wk: Worker) => Times(wk.handled, k)
  }

  lemma RestingIsNotReading(s: State, w: nat)
    requires Sized(s) && w < |s.workers| && WorkerFine(s, w) && AtRest(s, w)
    ensures !s.workers[w].phase.Reading?
  {
  }

  /** At rest nobody is at a request line. */
  lemma RestingHasRead(s: State, k: nat)
    requires Full(s) && Resting(s)
    ensures Sum(s.workers, ReadBy(k)) == if k < |s.pool.dispatched| then 1 else 0
  {
    forall w: nat | w < |s.workers| ensures ReadBy(k)(s.workers[w]) == Has(k)(s.workers[w]) {
      assert WorkerFine(s, w) && AtRest(s, w);
      RestingIsNotReading(s, w);
    }
    SumAgree(s.workers, ReadBy(k), Has(k));
  }
}
