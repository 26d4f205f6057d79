/** Which request went where: every dispatched request is read by exactly one worker and exactly once,
    every record belongs to its request, and a request whose header never ends is never closed. */
module ServerRequests {
  import opened Sums
  import opened Runs
  import P = PoolMachine
  import PI = PoolInvariant
  import L = LogMachine
  import LS = LogSafety
  import LC = LogControl
  import LD = LogData
  import opened Records
  import opened RequestLine
  import opened Requests
  import opened ServerMachine
  import opened ServerInvariant

  // ---------------------------------------------------------------- per worker

  function Last(hs: seq<Handled>): Handled
    requires hs != []
  {
    hs[|hs| - 1]
  }

  /** The requests of a series that are logged. */
  function LoggedOf(hs: seq<Handled>): (r: seq<Handled>)
    ensures |r| <= |hs|
  {
    if hs == [] then [] else LoggedOf(hs[..|hs| - 1]) + if IsLogged(Last(hs).o) then [Last(hs)] else []
  }

  /** What the worker is busy with is the request the pool gave it. */
  ghost predicate Holding(wk: Worker, pc: P.WorkerPc)
  {
    match wk.phase
    case Outside => true
    case Reading(k) => pc.Handling? && pc.k == k
    case _ => pc.Handling? && wk.handled != [] && Last(wk.handled).k == pc.k
  }

  /** The record on its way, if there is one, is that of the request last read. */
  ghost predicate Carrying(wk: Worker)
  {
    wk.handled != [] && wk.formatted != [] && wk.formatted[|wk.formatted| - 1].k == Last(wk.handled).k
  }

  ghost predicate Posting(wk: Worker)
  {
    wk.handled != [] && Last(wk.handled).o.Post?
  }

  /** A log call under way is the append of that record, or the get_log of a POST. */
  ghost predicate Calling(wk: Worker, th: L.Thread)
  {
    match wk.phase
    case Serving(_, _) => Carrying(wk)
    case Appending(_) => Carrying(wk)
    case Fetching => Posting(wk)
    case InLog =>
      || th.todo == []
      || (th.todo == [L.GetLog] && Posting(wk))
      || (|th.todo| == 1 && th.todo[0].AddToLog? && Carrying(wk))
    case _ => true
  }

  /** The records formatted are those of the static and dynamic requests, in order. */
  ghost predicate Matching(wk: Worker)
  {
    var ls := LoggedOf(Branched(wk));
    && |wk.formatted| == |ls|
    && forall m | 0 <= m < |ls| ::
         wk.formatted[m].k == ls[m].k && wk.formatted[m].empty == IsEmptyFile(ls[m].o)
  }

  /** Outcomes are what the inputs allow, and whoever got past the header loop had a header that ends. */
  ghost predicate Judged(wk: Worker, inputs: nat -> Input)
  {
    && (forall m | 0 <= m < |wk.handled| :: inputs(wk.handled[m].k).Allows(wk.handled[m].o))
    && (forall m | 0 <= m < |Branched(wk)| :: PastHeader(inputs(Branched(wk)[m].k), Branched(wk)[m].o))
  }

  /** The record carries the arrival stamp and the interval of request `k`. */
  ghost predicate IsRecordOf(rec: Record, k: nat, ds: seq<P.Dispatch>)
  {
    && k < |ds| && rec.arrival == ds[k].req.arrival
    && rec.arrival.Micros() + rec.dispatch.Micros() == ds[k].at.Micros()
  }

  ghost predicate Stamped(fs: seq<Formatted>, ds: seq<P.Dispatch>)
  {
    forall m | 0 <= m < |fs| :: IsRecordOf(fs[m].rec, fs[m].k, ds)
  }

  ghost predicate Traced(wk: Worker, pc: P.WorkerPc, th: L.Thread, inputs: nat -> Input, ds: seq<P.Dispatch>)
  {
    Holding(wk, pc) && Calling(wk, th) && Matching(wk) && Judged(wk, inputs) && Stamped(wk.formatted, ds)
  }

  ghost predicate TracedAt(s: State, w: nat)
    requires Sized(s) && w < |s.workers|
  {
    Traced(s.workers[w], s.pool.workers[w], s.log.threads[w], s.inputs, s.pool.dispatched)
  }

  // ---------------------------------------------------------------- all workers

  function Times(hs: seq<Handled>, k: nat): nat
  {
    if hs == [] then 0 else Times(hs[..|hs| - 1], k) + if Last(hs).k == k then 1 else 0
  }

  /** How often this worker has had request `k`: requests whose line it has read, and the one it is
      about to read. */
  function Has(k: nat): Worker -> int
  {
    (wk: Worker) => Times(wk.handled, k) + Bit(wk.phase == Reading(k))
  }

  /** Each dispatched request has come to exactly one worker, once; no other request to anybody. */
  ghost predicate HandledOnce(ws: seq<Worker>, n: nat)
  {
    forall k: nat :: Sum(ws, Has(k)) == if k < n then 1 else 0
  }

  /** How many of the first `n` requests are never finished. */
  function EndlessCount(inputs: nat -> Input, n: nat): nat
  {
    if n == 0 then 0 else EndlessCount(inputs, n - 1) + if inputs(n - 1).Endless() then 1 else 0
  }

  /** A request is dispatched only while fewer than all workers and slots are taken for ever. */
  ghost predicate GotThrough(s: State)
  {
    forall k | 0 <= k < |s.pool.dispatched| ::
      EndlessCount(s.inputs, k) < |s.pool.workers| && EndlessCount(s.inputs, k) < s.pool.ring.Capacity()
  }

  ghost predicate AllTraced(s: State)
    requires Sized(s)
  {
    forall w: nat | w < |s.workers| :: TracedAt(s, w)
  }

  ghost predicate Full(s: State)
  {
    Inv(s) && AllTraced(s) && HandledOnce(s.workers, |s.pool.dispatched|) && GotThrough(s)
  }

  lemma InitFull(s: State)
    requires Init(s)
    ensures Full(s)
  {
    InitInv(s);
    forall w: nat | w < |s.workers| ensures s.workers[w] == NewWorker(w) && TracedAt(s, w) {}
    forall k: nat ensures Sum(s.workers, Has(k)) == 0 {
      SumZero(s.workers, Has(k));
    }
  }

  // ---------------------------------------------------------------- handling steps

  lemma LoggedGrows(hs: seq<Handled>, h: Handled)
    ensures LoggedOf(hs + [h]) == LoggedOf(hs) + if IsLogged(h.o) then [h] else []
  {
    assert (hs + [h])[..|hs|] == hs;
  }

  lemma TimesGrows(hs: seq<Handled>, h: Handled, k: nat)
    ensures Times(hs + [h], k) == Times(hs, k) + if h.k == k then 1 else 0
  {
    assert (hs + [h])[..|hs|] == hs;
  }

  lemma ReadLineTraced(wk: Worker, o: Outcome, pc: P.WorkerPc, th: L.Thread, inputs: nat -> Input, ds: seq<P.Dispatch>)
    requires Traced(wk, pc, th, inputs, ds) && wk.phase.Reading? && inputs(wk.phase.k).Allows(o)
    ensures Traced(ReadLine(wk, wk.phase.k, o), pc, th, inputs, ds)
  {
    ReadLineJudged(wk, o, inputs);
    ReadLineMatches(wk, o);
  }

  lemma ReadLineJudged(wk: Worker, o: Outcome, inputs: nat -> Input)
    requires Judged(wk, inputs) && wk.phase.Reading? && inputs(wk.phase.k).Allows(o)
    ensures Judged(ReadLine(wk, wk.phase.k, o), inputs)
  {
    var wk' := ReadLine(wk, wk.phase.k, o);
    assert Branched(wk) == wk.handled;
    forall m | 0 <= m < |Branched(wk')| ensures PastHeader(inputs(Branched(wk')[m].k), Branched(wk')[m].o) {
      if m < |wk.handled| {
        assert Branched(wk')[m] == Branched(wk)[m];
      }
    }
  }

  lemma ReadLineMatches(wk: Worker, o: Outcome)
    requires Matching(wk) && wk.phase.Reading?
    ensures Matching(ReadLine(wk, wk.phase.k, o))
  {
    if o.NoLine? {
      LoggedGrows(wk.handled, Handled(wk.phase.k, o));
    } else {
      assert Branched(ReadLine(wk, wk.phase.k, o)) == wk.handled;
    }
  }

  lemma BranchTraced(wk: Worker, rec: Record, pc: P.WorkerPc, th: L.Thread, inputs: nat -> Input, ds: seq<P.Dispatch>)
    requires Traced(wk, pc, th, inputs, ds) && Tallied(wk) && wk.phase.Counted? && !wk.phase.o.NoLine?
    requires pc.Handling? && PastHeader(inputs(pc.k), wk.phase.o) && IsRecordOf(rec, pc.k, ds)
    ensures Traced(Branch(wk, pc.k, wk.phase.o, rec), pc, th, inputs, ds)
  {
    var wk' := Branch(wk, pc.k, wk.phase.o, rec);
    var last := Last(wk.handled);
    assert last == Handled(pc.k, wk.phase.o);
    assert Branched(wk') == wk.handled == Branched(wk) + [last];
    LoggedGrows(Branched(wk), last);
    BranchMatches(wk, rec, pc.k, last);
  }

  lemma BranchMatches(wk: Worker, rec: Record, k: nat, last: Handled)
    requires Matching(wk) && wk.phase == Counted(last.o) && last.k == k && !last.o.NoLine?
    requires wk.handled == Branched(wk) + [last]
    requires LoggedOf(wk.handled) == LoggedOf(Branched(wk)) + if IsLogged(last.o) then [last] else []
    ensures Matching(Branch(wk, k, last.o, rec))
  {
    assert Branched(Branch(wk, k, last.o, rec)) == wk.handled;
  }

  /** Steps that only move on to the next phase, or hand the log a call. */
  lemma PhaseTraced(wk: Worker, wk': Worker, pc: P.WorkerPc, th: L.Thread, th': L.Thread,
                    inputs: nat -> Input, ds: seq<P.Dispatch>)
    requires Traced(wk, pc, th, inputs, ds) && wk'.handled == wk.handled && wk'.formatted == wk.formatted
    requires !wk.phase.Outside? && !wk.phase.Reading? && !wk.phase.Counted?
    requires !wk'.phase.Outside? && !wk'.phase.Reading? && !wk'.phase.Counted?
    requires Calling(wk', th')
    ensures Traced(wk', pc, th', inputs, ds)
  {
  }

  lemma RecordNowIsRecordOf(s: State, w: nat, st: Stats)
    requires PI.Inv(s.pool) && w < |s.pool.workers| && s.pool.workers[w].Handling?
    ensures IsRecordOf(RecordNow(s, w, st), s.pool.workers[w].k, s.pool.dispatched)
  {
    assert PI.IntervalCorrect(s.pool.dispatched, s.pool.workers[w]);
  }

  lemma ReadingTraces(s: State, w: nat, o: Outcome)
    requires Sized(s) && CanHandle(s, w, o) && TracedAt(s, w) && s.workers[w].phase.Reading?
    ensures Sized(HandleStep(s, w, o)) && TracedAt(HandleStep(s, w, o), w)
  {
    ReadLineTraced(s.workers[w], o, s.pool.workers[w], s.log.threads[w], s.inputs, s.pool.dispatched);
  }

  lemma BranchTraces(s: State, w: nat, o: Outcome)
    requires Sized(s) && CanHandle(s, w, o) && TracedAt(s, w) && s.workers[w].phase.Counted?
    requires WorkerFine(s, w) && PI.Inv(s.pool)
    ensures Sized(HandleStep(s, w, o)) && TracedAt(HandleStep(s, w, o), w)
  {
    var rec := RecordNow(s, w, CountKind(s.workers[w].stats, s.workers[w].phase.o));
    RecordNowIsRecordOf(s, w, rec.stats);
    BranchTraced(s.workers[w], rec, s.pool.workers[w], s.log.threads[w], s.inputs, s.pool.dispatched);
  }

  lemma MovingOnTraces(s: State, w: nat, o: Outcome)
    requires Sized(s) && CanHandle(s, w, o) && TracedAt(s, w) && WorkerFine(s, w)
    requires !s.workers[w].phase.Reading? && !s.workers[w].phase.Counted?
    ensures Sized(HandleStep(s, w, o)) && TracedAt(HandleStep(s, w, o), w)
  {
    var s' := HandleStep(s, w, o);
    CallsMoveOn(s, w, o);
    PhaseTraced(s.workers[w], s'.workers[w], s.pool.workers[w], s.log.threads[w], s'.log.threads[w], s.inputs,
                s.pool.dispatched);
  }

  lemma CallsMoveOn(s: State, w: nat, o: Outcome)
    requires Sized(s) && CanHandle(s, w, o) && Calling(s.workers[w], s.log.threads[w])
    requires Glued(s.pool.workers[w], s.workers[w], s.log.threads[w])
    requires !s.workers[w].phase.Reading? && !s.workers[w].phase.Counted?
    ensures var s' := HandleStep(s, w, o);
            && Sized(s') && s'.pool == s.pool && s'.inputs == s.inputs
            && s'.workers[w].handled == s.workers[w].handled && s'.workers[w].formatted == s.workers[w].formatted
            && !s'.workers[w].phase.Outside? && !s'.workers[w].phase.Reading? && !s'.workers[w].phase.Counted?
            && Calling(s'.workers[w], s'.log.threads[w])
  {
  }

  lemma HandleTraces(s: State, w: nat, o: Outcome)
    requires Inv(s) && CanHandle(s, w, o) && TracedAt(s, w)
    ensures Sized(HandleStep(s, w, o)) && TracedAt(HandleStep(s, w, o), w)
  {
    assert WorkerFine(s, w);
    match s.workers[w].phase
    case Reading(_) => ReadingTraces(s, w, o);
    case Counted(_) => BranchTraces(s, w, o);
    case _ => MovingOnTraces(s, w, o);
  }

  lemma OthersStayTraced(s: State, w: nat, o: Outcome, u: nat)
    requires Sized(s) && CanHandle(s, w, o) && u < |s.workers| && u != w && TracedAt(s, u)
    ensures Sized(HandleStep(s, w, o)) && TracedAt(HandleStep(s, w, o), u)
  {
  }

  /** A worker's requests do not change by handling them: reading a line only moves one from the
      first place to the second. */
  lemma HandleKeepsHas(s: State, w: nat, o: Outcome, k: nat)
    requires CanHandle(s, w, o)
    ensures Sum(HandleStep(s, w, o).workers, Has(k)) == Sum(s.workers, Has(k))
  {
    var wk, s' := s.workers[w], HandleStep(s, w, o);
    if wk.phase.Reading? {
      TimesGrows(wk.handled, Handled(wk.phase.k, o), k);
    }
    SumUpdate(s.workers, w, s'.workers[w], Has(k));
  }

  lemma HandleFrame(s: State, w: nat, o: Outcome)
    requires CanHandle(s, w, o)
    ensures var s' := HandleStep(s, w, o);
            s'.pool == s.pool && s'.inputs == s.inputs && |s'.workers| == |s.workers|
  {
  }

  lemma HandleKeepsFull(s: State, w: nat, o: Outcome)
    requires Full(s) && CanHandle(s, w, o)
    ensures Full(HandleStep(s, w, o))
  {
    var s' := HandleStep(s, w, o);
    HandleStepKeepsInv(s, w, o);
    HandleFrame(s, w, o);
    forall u: nat | u < |s.workers| ensures TracedAt(s', u) {
      assert TracedAt(s, u);
      if u == w {
        HandleTraces(s, w, o);
      } else {
        OthersStayTraced(s, w, o, u);
      }
    }
    forall k: nat ensures Sum(s'.workers, Has(k)) == if k < |s.pool.dispatched| then 1 else 0 {
      HandleKeepsHas(s, w, o, k);
    }
  }

  // ---------------------------------------------------------------- log steps

  /** A step of the log takes at most the first call off a thread's list. */
  lemma LogStepTodo(s: L.State, a: L.Action, t: nat)
    requires L.Enabled(s, a) && t < |s.threads|
    ensures var s' := L.Apply(s, a);
            && |s'.threads| == |s.threads|
            && (s'.threads[t].todo == s.threads[t].todo
                || (s.threads[t].todo != [] && s'.threads[t].todo == s.threads[t].todo[1..]))
  {
    if t != a.t {
      LD.OthersAreUntouched(s, a, t);
    } else if LC.Quiet(s, a) {
      QuietStepTodo(s, a);
    } else {
      LeavingStepTodo(s, a);
    }
  }

  lemma QuietStepTodo(s: L.State, a: L.Action)
    requires LC.Quiet(s, a)
    ensures var s', t := L.Apply(s, a), a.t;
            && |s'.threads| == |s.threads|
            && (s'.threads[t].todo == s.threads[t].todo
                || (s.threads[t].todo != [] && s'.threads[t].todo == s.threads[t].todo[1..]))
  {
    if s.threads[a.t].pc != L.Idle {
      LC.StaysInCall(s, a);
    }
  }

  lemma LeavingStepTodo(s: L.State, a: L.Action)
    requires L.Enabled(s, a) && !LC.Quiet(s, a)
    ensures var s', t := L.Apply(s, a), a.t;
            && |s'.threads| == |s.threads|
            && (s'.threads[t].todo == s.threads[t].todo
                || (s.threads[t].todo != [] && s'.threads[t].todo == s.threads[t].todo[1..]))
  {
    match s.threads[a.t].pc
    case ReadLeave(_, _, _) => assert L.Apply(s, a) == L.LeaveRead(s, a.t, a.wake);
    case WriteLeave => assert L.Apply(s, a) == L.LeaveWrite(s, a.t, a.wake);
  }

  lemma LogTraced(wk: Worker, pc: P.WorkerPc, th: L.Thread, th': L.Thread, inputs: nat -> Input, ds: seq<P.Dispatch>)
    requires Traced(wk, pc, th, inputs, ds)
    requires th'.todo == th.todo || (th.todo != [] && th'.todo == th.todo[1..])
    ensures Traced(wk, pc, th', inputs, ds)
  {
  }

  lemma LogStepKeepsFull(s: State, l: L.Action)
    requires Full(s) && L.Enabled(s.log, l)
    ensures Full(s.(log := L.Apply(s.log, l)))
  {
    var s' := s.(log := L.Apply(s.log, l));
    LogStepKeepsInv(s, l);
    forall w: nat | w < |s.workers| ensures TracedAt(s', w) {
      assert TracedAt(s, w);
      LogStepTodo(s.log, l, w);
      LogTraced(s.workers[w], s.pool.workers[w], s.log.threads[w], s'.log.threads[w], s.inputs, s.pool.dispatched);
    }
  }

  // ---------------------------------------------------------------- pool steps

  /** Does this step take a request out of the queue? */
  predicate Dequeues(s: P.State, a: P.Action)
  {
    a.Worker? && a.w < |s.workers| && s.workers[a.w] in {P.Ready, P.Woken} && s.ring.queued > 0
  }

  lemma PoolFrame(s: P.State, a: P.Action)
    requires P.Enabled(s, a)
    ensures var s' := P.Apply(s, a);
            && |s'.workers| == |s.workers| && s'.ring.Capacity() == s.ring.Capacity()
            && s.dispatched <= s'.dispatched
            && |s'.dispatched| == |s.dispatched| + Bit(Dequeues(s, a))
  {
  }

  lemma PoolWorker(s: P.State, a: P.Action, w: nat)
    requires P.Enabled(s, a) && w < |s.workers|
    ensures |P.Apply(s, a).workers| == |s.workers|
    ensures var pc, pc' := s.workers[w], P.Apply(s, a).workers[w];
            && (!(a.Worker? && a.w == w) && pc.Handling? ==> pc' == pc)
            && (!(a.Worker? && a.w == w) && !pc.Handling? ==> !pc'.Handling?)
            && (a.Worker? && a.w == w && !pc.Handling? ==>
                  (pc'.Handling? <==> Dequeues(s, a)) && (pc'.Handling? ==> pc'.k == |s.dispatched|))
            && (a.Worker? && a.w == w && pc.Handling? ==> !pc'.Handling?)
  {
  }

  lemma PoolTraced(wk: Worker, pc: P.WorkerPc, pc': P.WorkerPc, th: L.Thread, inputs: nat -> Input,
                   ds: seq<P.Dispatch>, ds': seq<P.Dispatch>)
    requires Traced(wk, pc, th, inputs, ds) && Glued(pc, wk, th) && ds <= ds'
    requires pc.Handling? && pc'.Handling? ==> pc' == pc
    requires pc.Handling? && !pc'.Handling? ==> wk.phase == Returned
    ensures Traced(PhaseAfter(wk, pc, pc'), pc', th, inputs, ds')
  {
  }

  lemma PoolStepTraces(s: State, p: P.Action, w: nat)
    requires Sized(s) && Enabled(s, PoolStep(p)) && w < |s.workers| && TracedAt(s, w) && WorkerFine(s, w)
    ensures Sized(Apply(s, PoolStep(p))) && TracedAt(Apply(s, PoolStep(p)), w)
  {
    var s' := Apply(s, PoolStep(p));
    PoolFrame(s.pool, p);
    PoolWorker(s.pool, p, w);
    PoolTraced(s.workers[w], s.pool.workers[w], s'.pool.workers[w], s.log.threads[w], s.inputs, s.pool.dispatched,
               s'.pool.dispatched);
  }

  /** A request comes to a worker by being dispatched, and stays with it. */
  lemma PoolStepKeepsHas(s: State, p: P.Action, k: nat)
    requires Sized(s) && Enabled(s, PoolStep(p))
    requires p.Worker? ==> Glued(s.pool.workers[p.w], s.workers[p.w], s.log.threads[p.w])
    ensures Sum(Apply(s, PoolStep(p)).workers, Has(k))
         == Sum(s.workers, Has(k)) + if Dequeues(s.pool, p) && k == |s.pool.dispatched| then 1 else 0
  {
    var s' := Apply(s, PoolStep(p));
    if p.Worker? {
      PoolWorker(s.pool, p, p.w);
      SumUpdate(s.workers, p.w, s'.workers[p.w], Has(k));
    }
  }

  // ---------------------------------------------------------------- requests that never end

  lemma {:induction false} EndlessGrows(inputs: nat -> Input, n: nat, m: nat)
    requires n <= m
    ensures EndlessCount(inputs, n) <= EndlessCount(inputs, m)
    decreases m
  {
    if n < m {
      EndlessGrows(inputs, n, m - 1);
    }
  }

  /** If every endless request among the first `n` is held by a worker, there are at least as many
      workers handling requests. */
  lemma {:induction false} EndlessNeedWorkers(inputs: nat -> Input, ws: seq<P.WorkerPc>, n: nat)
    requires forall j: nat | j < n && inputs(j).Endless() :: Sum(ws, PI.Handles(j)) > 0
    ensures EndlessCount(inputs, n) <= Sum(ws, PI.HandlingBit)
    decreases n
  {
    if n == 0 {
      SumNonNegative(ws, PI.HandlingBit);
    } else if !inputs(n - 1).Endless() {
      EndlessNeedWorkers(inputs, ws, n - 1);
    } else {
      var w := SumWitness(ws, PI.Handles(n - 1));
      var ws' := ws[w := P.Ready];
      forall j: nat | j < n - 1 && inputs(j).Endless() ensures Sum(ws', PI.Handles(j)) > 0 {
        SumUpdate(ws, w, P.Ready, PI.Handles(j));
      }
      SumUpdate(ws, w, P.Ready, PI.HandlingBit);
      EndlessNeedWorkers(inputs, ws', n - 1);
    }
  }

  lemma {:induction false} TimesPositive(hs: seq<Handled>, k: nat) returns (m: nat)
    requires Times(hs, k) > 0
    ensures m < |hs| && hs[m].k == k
  {
    if Last(hs).k == k {
      m := |hs| - 1;
    } else {
      m := TimesPositive(hs[..|hs| - 1], k);
    }
  }

  lemma WorkerHolds(s: State, w: nat, k: nat)
    requires PI.Inv(s.pool) && w < |s.pool.workers| && s.pool.workers[w].Handling? && s.pool.workers[w].k == k
    ensures k < |s.pool.dispatched| && s.pool.closed[k] == 0
  {
    SumAtLeast(s.pool.workers, PI.Handles(k), w);
  }

  /** The worker that has had a closed request has read its line and got past its header. */
  lemma HadAndClosed(s: State, w: nat, k: nat) returns (m: nat)
    requires Sized(s) && w < |s.workers| && TracedAt(s, w) && PI.Inv(s.pool)
    requires Has(k)(s.workers[w]) > 0 && s.pool.closed[k] > 0
    ensures m < |Branched(s.workers[w])| && Branched(s.workers[w])[m].k == k
  {
    var wk := s.workers[w];
    if s.pool.workers[w].Handling? && s.pool.workers[w].k == k {
      WorkerHolds(s, w, k);
    }
    m := TimesPositive(wk.handled, k);
  }

  lemma DispatchedIsHad(s: State, k: nat) returns (w: nat)
    requires HandledOnce(s.workers, |s.pool.dispatched|) && k < |s.pool.dispatched|
    ensures w < |s.workers| && Has(k)(s.workers[w]) > 0
  {
    w := SumWitness(s.workers, Has(k));
  }

  /** A request that has been closed was read by some worker, which got past its header. */
  lemma ClosedWasHandled(s: State, k: nat) returns (w: nat, m: nat)
    requires Full(s) && s.pool.closed[k] > 0
    ensures w < |s.workers| && m < |Branched(s.workers[w])| && Branched(s.workers[w])[m].k == k
  {
    SumNonNegative(s.pool.workers, PI.Handles(k));
    w := DispatchedIsHad(s, k);
    assert TracedAt(s, w);
    m := HadAndClosed(s, w, k);
  }

  lemma ClosedIsNotEndless(s: State, k: nat)
    requires Full(s) && s.pool.closed[k] > 0
    ensures !s.inputs(k).Endless()
  {
    var w, m := ClosedWasHandled(s, k);
    assert TracedAt(s, w);
    var h := Branched(s.workers[w])[m];
    assert h == s.workers[w].handled[m];
    assert s.inputs(k).Allows(h.o) && PastHeader(s.inputs(k), h.o);
  }

  /** Worker `w` is handling request `k`. */
  ghost predicate Holds(s: State, w: nat, k: nat)
  {
    w < |s.pool.workers| && s.pool.workers[w].Handling? && s.pool.workers[w].k == k
  }

  lemma EndlessIsHeld(s: State, j: nat) returns (w: nat)
    requires Full(s) && j < |s.pool.dispatched| && s.inputs(j).Endless()
    ensures Holds(s, w, j) && Sum(s.pool.workers, PI.Handles(j)) > 0
  {
    if s.pool.closed[j] > 0 {
      ClosedIsNotEndless(s, j);
    }
    w := SumWitness(s.pool.workers, PI.Handles(j));
  }

  /** Every dispatched request that never ends holds a worker of its own. */
  lemma EndlessAreHeld(s: State)
    requires Full(s)
    ensures forall j: nat | j < |s.pool.dispatched| && s.inputs(j).Endless() :: exists w: nat :: Holds(s, w, j)
    ensures forall w: nat, i: nat, j: nat | Holds(s, w, i) && Holds(s, w, j) :: i == j
    ensures EndlessCount(s.inputs, |s.pool.dispatched|) <= Sum(s.pool.workers, PI.HandlingBit)
  {
    forall j: nat | j < |s.pool.dispatched| && s.inputs(j).Endless()
      ensures Sum(s.pool.workers, PI.Handles(j)) > 0 && exists w: nat :: Holds(s, w, j)
    {
      var w := EndlessIsHeld(s, j);
    }
    EndlessNeedWorkers(s.inputs, s.pool.workers, |s.pool.dispatched|);
  }

  /** When a request is taken out of the queue, its worker and its slot were not among those in service. */
  lemma DequeueNeedsRoom(s: P.State, a: P.Action)
    requires PI.Inv(s) && P.Enabled(s, a) && Dequeues(s, a)
    ensures Sum(s.workers, PI.HandlingBit) < |s.workers| && Sum(s.workers, PI.HandlingBit) < s.ring.Capacity()
  {
    var pc := P.Handling(0, s.ring.First(), s.clock);
    SumUpdate(s.workers, a.w, pc, PI.HandlingBit);
    SumBetween(s.workers[a.w := pc], PI.HandlingBit, 1);
    SumOfSums(s.workers, PI.BusyBit, PI.HandlingBit, PI.FinishingBit);
    SumNonNegative(s.workers, PI.FinishingBit);
  }

  lemma PoolStepGetsThrough(s: State, p: P.Action)
    requires Full(s) && Enabled(s, PoolStep(p))
    ensures GotThrough(Apply(s, PoolStep(p)))
  {
    PoolFrame(s.pool, p);
    if Dequeues(s.pool, p) {
      EndlessAreHeld(s);
      DequeueNeedsRoom(s.pool, p);
    }
    NextGetsThrough(s, Apply(s, PoolStep(p)));
  }

  lemma NextGetsThrough(s: State, s': State)
    requires GotThrough(s) && s'.inputs == s.inputs && |s'.pool.workers| == |s.pool.workers|
    requires s'.pool.ring.Capacity() == s.pool.ring.Capacity()
    requires var n := |s.pool.dispatched|;
             || |s'.pool.dispatched| == n
             || (|s'.pool.dispatched| == n + 1
                 && EndlessCount(s.inputs, n) < |s.pool.workers|
                 && EndlessCount(s.inputs, n) < s.pool.ring.Capacity())
    ensures GotThrough(s')
  {
  }

  lemma PoolStepKeepsFull(s: State, p: P.Action)
    requires Full(s) && Enabled(s, PoolStep(p))
    ensures Full(Apply(s, PoolStep(p)))
  {
    var s' := Apply(s, PoolStep(p));
    PoolStepKeepsInv(s, p);
    PoolFrame(s.pool, p);
    PoolStepGetsThrough(s, p);
    forall w: nat | w < |s.workers| ensures TracedAt(s', w) {
      assert TracedAt(s, w) && WorkerFine(s, w);
      PoolStepTraces(s, p, w);
    }
    forall k: nat ensures Sum(s'.workers, Has(k)) == if k < |s'.pool.dispatched| then 1 else 0 {
      assert p.Worker? ==> WorkerFine(s, p.w);
      PoolStepKeepsHas(s, p, k);
    }
  }

  // ---------------------------------------------------------------- reachable states

  lemma StepKeepsFull(s: State, a: Action)
    requires Full(s) && Enabled(s, a)
    ensures Full(Apply(s, a))
  {
    match a
    case PoolStep(p) => PoolStepKeepsFull(s, p);
    case LogStep(l) => LogStepKeepsFull(s, l);
    case Handle(w, o) => HandleKeepsFull(s, w, o);
  }

  lemma NextKeepsFull(s: State, s': State)
    requires Full(s) && Next(s, s')
    ensures Full(s')
  {
    var a :| Enabled(s, a) && s' == Apply(s, a);
    StepKeepsFull(s, a);
  }

  lemma ReachableFull(run: seq<State>, i: nat)
    requires FiniteRun(run, Init, Next) && i < |run|
    ensures Full(run[i])
  {
    forall s | Init(s) ensures Full(s) { InitFull(s); }
    forall s, s' | Full(s) && Next(s, s') ensures Full(s') { NextKeepsFull(s, s'); }
    InvariantOnRun(run, Init, Next, Full, i);
  }
}
