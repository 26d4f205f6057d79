/** The invariant of the whole server: the parts keep theirs, the request phases fit the pool and the
    log, and counters, records and log entries of every worker agree. */
module ServerInvariant {
  import P = PoolMachine
  import PI = PoolInvariant
  import L = LogMachine
  import LS = LogSafety
  import LC = LogControl
  import LD = LogData
  import opened Records
  import opened RequestLine
  import opened Requests
  import opened ServerMachine

  // ---------------------------------------------------------------- per worker

  /** Pool, request phase and log thread of one worker fit together. */
  ghost predicate Glued(pc: P.WorkerPc, wk: Worker, th: L.Thread)
  {
    && (wk.phase.Outside? <==> !pc.Handling?)
    && (!wk.phase.InLog? ==> th == L.Thread(L.Idle, []))
    && (wk.phase.Serving? || wk.phase.Appending? ==> wk.phase.rec.Printable())
    && (wk.phase.Counted? ==> !wk.phase.o.NoLine?)
  }

  function EmptyCount(fs: seq<Formatted>): (n: nat)
    ensures n <= |fs|
  {
    if fs == [] then 0 else EmptyCount(fs[..|fs| - 1]) + if fs[|fs| - 1].empty then 1 else 0
  }

  /** The k-th record of the thread with the given id: its kinds do not exceed its count, and its
      static and dynamic requests are its position, less the empty files before it. */
  predicate RecordFits(fs: seq<Formatted>, k: nat, id: nat)
    requires k < |fs|
  {
    var st := fs[k].rec.stats;
    && fs[k].rec.Printable() && st.id == id
    && st.statReq + st.dynmReq == k + 1 - EmptyCount(fs[..k])
    && st.statReq + st.dynmReq + st.postReq <= st.totalReq
  }

  ghost predicate Ledger(fs: seq<Formatted>, id: nat)
  {
    && (forall k: nat | k < |fs| :: RecordFits(fs, k, id))
    && (forall i, j | 0 <= i < j < |fs| :: fs[i].rec.stats.totalReq < fs[j].rec.stats.totalReq)
  }

  /** The counters of one worker against its records, undone requests and errors. */
  ghost predicate Balanced(wk: Worker, id: nat)
  {
    Ledger(wk.formatted, id) && Reckoned(wk, id)
  }

  ghost predicate Reckoned(wk: Worker, id: nat)
  {
    var st, fs := wk.stats, wk.formatted;
    && st.id == id
    && |fs| == st.statReq + st.dynmReq + wk.undone
    && st.totalReq == st.statReq + st.dynmReq + st.postReq + wk.errors + (if wk.phase.Counted? then 1 else 0)
    && EmptyCount(fs) == wk.undone + (if wk.phase.Serving? && wk.phase.empty then 1 else 0)
    && (wk.phase.Serving? ==>
          && fs != [] && fs[|fs| - 1].rec == wk.phase.rec && fs[|fs| - 1].empty == wk.phase.empty
          && (wk.phase.empty ==> st.statReq > 0))
    && (wk.phase.Appending? ==> fs != [] && fs[|fs| - 1].rec == wk.phase.rec)
    && (forall k | 0 <= k < |fs| :: fs[k].rec.stats.totalReq <= st.totalReq - (if wk.phase.Counted? then 1 else 0))
  }

  /** The requests whose branch has been taken. */
  function Branched(wk: Worker): seq<Handled>
  {
    if wk.phase.Counted? && wk.handled != [] then wk.handled[..|wk.handled| - 1] else wk.handled
  }

  /** Each counter counts exactly the requests of its kind; an empty file being served is counted as
      static until it is taken back. */
  ghost predicate Tallied(wk: Worker)
  {
    var st, hs := wk.stats, Branched(wk);
    var passing := if wk.phase.Serving? && wk.phase.empty then 1 else 0;
    && st.totalReq == |wk.handled| - KindCount(wk.handled, DroppedKind)
    && (wk.phase.Counted? ==> wk.handled != [] && wk.handled[|wk.handled| - 1].o == wk.phase.o)
    && st.statReq == KindCount(hs, StaticKind) + passing
    && st.dynmReq == KindCount(hs, DynamicKind)
    && st.postReq == KindCount(hs, PostKind)
    && wk.errors == KindCount(hs, ErrorKind) - passing
  }

  lemma KindCountGrows(hs: seq<Handled>, h: Handled, kind: Kind)
    ensures KindCount(hs + [h], kind) == KindCount(hs, kind) + if KindOf(h.o) == kind then 1 else 0
  {
    assert (hs + [h])[..|hs|] == hs;
  }

  lemma ReadLineKeepsTally(wk: Worker, k: nat, o: Outcome)
    requires Tallied(wk) && wk.phase.Reading?
    ensures Tallied(ReadLine(wk, k, o))
  {
    assert (wk.handled + [Handled(k, o)])[..|wk.handled|] == wk.handled;
    forall kind
      ensures KindCount(wk.handled + [Handled(k, o)], kind)
           == KindCount(wk.handled, kind) + if KindOf(o) == kind then 1 else 0
    {
      KindCountGrows(wk.handled, Handled(k, o), kind);
    }
  }

  lemma BranchKeepsTally(wk: Worker, k: nat, o: Outcome, rec: Record)
    requires Tallied(wk) && wk.phase == Counted(o) && !o.NoLine?
    ensures Tallied(Branch(wk, k, o, rec))
  {
    var last := wk.handled[|wk.handled| - 1];
    assert wk.handled == Branched(wk) + [last];
    forall kind
      ensures KindCount(wk.handled, kind) == KindCount(Branched(wk), kind) + if KindOf(o) == kind then 1 else 0
    {
      KindCountGrows(Branched(wk), last, kind);
    }
    BranchTally(wk, k, o, rec);
  }

  lemma BranchTally(wk: Worker, k: nat, o: Outcome, rec: Record)
    requires Tallied(wk) && wk.phase == Counted(o) && !o.NoLine?
    requires forall kind ::
               KindCount(wk.handled, kind) == KindCount(Branched(wk), kind) + if KindOf(o) == kind then 1 else 0
    ensures Tallied(Branch(wk, k, o, rec))
  {
  }

  /** The texts of a worker's records. */
  ghost function Texts(fs: seq<Formatted>): (r: seq<string>)
    requires forall k | 0 <= k < |fs| :: fs[k].rec.Printable()
    ensures |r| == |fs| && forall k | 0 <= k < |fs| :: r[k] == Block(fs[k].rec)
  {
    seq(|fs|, k requires 0 <= k < |fs| => Block(fs[k].rec))
  }

  /** The record formatted but not yet handed to the log. */
  ghost function Unsent(p: Phase): seq<string>
  {
    if (p.Serving? || p.Appending?) && p.rec.Printable() then [Block(p.rec)] else []
  }

  /** What worker `w` has in the log, has handed to it, or is about to: exactly its records in order. */
  ghost predicate Recorded(s: State, w: nat)
    requires w < |s.workers| && w < |s.log.threads|
  {
    && (forall k | 0 <= k < |s.workers[w].formatted| :: s.workers[w].formatted[k].rec.Printable())
    && LS.Account(s.log, w) + Unsent(s.workers[w].phase) == Texts(s.workers[w].formatted)
  }

  ghost predicate Sized(s: State)
  {
    |s.workers| == |s.pool.workers| == |s.log.threads|
  }

  ghost predicate WorkersFine(s: State)
    requires Sized(s)
  {
    forall w: nat | w < |s.workers| :: WorkerFine(s, w)
  }

  ghost predicate WorkerFine(s: State, w: nat)
    requires Sized(s) && w < |s.workers|
  {
    && Glued(s.pool.workers[w], s.workers[w], s.log.threads[w])
    && Balanced(s.workers[w], w + 1)
    && Tallied(s.workers[w])
    && Recorded(s, w)
  }

  ghost predicate WritersKnown(h: seq<L.Entry>, n: nat)
  {
    forall i | 0 <= i < |h| :: h[i].writer < n
  }

  ghost predicate Inv(s: State)
  {
    && Sized(s)
    && PI.Inv(s.pool) && LS.Inv(s.log)
    && WorkersFine(s)
    && WritersKnown(s.log.history, |s.workers|)
  }

  lemma InitInv(s: State)
    requires Init(s)
    ensures Inv(s)
  {
    PI.InitInv(s.pool);
    LS.InitInv(s.log);
    forall w: nat | w < |s.workers| ensures WorkerFine(s, w) {
      NewWorkerIsFine(s, w);
    }
  }

  lemma NewWorkerIsFine(s: State, w: nat)
    requires Sized(s) && w < |s.workers| && s.workers[w] == NewWorker(w) && s.pool.workers[w] == P.Ready
    requires s.log.threads[w] == L.Thread(L.Idle, []) && s.log.history == []
    ensures WorkerFine(s, w)
  {
    assert LS.Account(s.log, w) == [];
  }

  // ---------------------------------------------------------------- log steps

  /** A thread with nothing to do is not touched by any step of the log. */
  lemma IdleThreadStays(s: L.State, a: L.Action, w: nat)
    requires L.Enabled(s, a) && w < |s.threads| && s.threads[w] == L.Thread(L.Idle, [])
    ensures w < |L.Apply(s, a).threads| && L.Apply(s, a).threads[w] == L.Thread(L.Idle, [])
  {
    assert a.t != w;
    LD.OthersAreUntouched(s, a, w);
  }

  lemma LogStepAddsKnownWriter(s: L.State, a: L.Action)
    requires L.Enabled(s, a) && WritersKnown(s.history, |s.threads|)
    ensures WritersKnown(L.Apply(s, a).history, |s.threads|)
  {
  }

  lemma LogStepKeepsInv(s: State, l: L.Action)
    requires Inv(s) && L.Enabled(s.log, l)
    ensures Inv(s.(log := L.Apply(s.log, l)))
  {
    var s' := s.(log := L.Apply(s.log, l));
    LS.StepKeepsInv(s.log, l);
    LogStepAddsKnownWriter(s.log, l);
    LS.StepKeepsAccount(s.log, l, 0);
    forall w: nat | w < |s.workers| ensures WorkerFine(s', w) {
      assert WorkerFine(s, w);
      LS.StepKeepsAccount(s.log, l, w);
      if s.log.threads[w] == L.Thread(L.Idle, []) {
        IdleThreadStays(s.log, l, w);
      }
    }
  }

  // ---------------------------------------------------------------- pool steps

  lemma PoolStepFrame(s: P.State, a: P.Action, w: nat)
    requires P.Enabled(s, a) && w < |s.workers|
    ensures |P.Apply(s, a).workers| == |s.workers|
    ensures !(a.Worker? && a.w == w) ==> (P.Apply(s, a).workers[w].Handling? <==> s.workers[w].Handling?)
  {
  }

  lemma PoolStepKeepsInv(s: State, p: P.Action)
    requires Inv(s) && Enabled(s, PoolStep(p))
    ensures Inv(Apply(s, PoolStep(p)))
  {
    var s' := Apply(s, PoolStep(p));
    PI.StepKeepsInv(s.pool, p);
    PoolStepFrame(s.pool, p, 0);
    forall w: nat | w < |s.workers| ensures WorkerFine(s', w) {
      assert WorkerFine(s, w);
      PoolStepFrame(s.pool, p, w);
      if p.Worker? && p.w == w {
        PhaseChangeKeepsWorker(s.pool.workers[w], s'.pool.workers[w], s.workers[w], s.log.threads[w], w + 1);
        assert Unsent(s'.workers[w].phase) == Unsent(s.workers[w].phase);
      }
    }
  }

  lemma PhaseChangeKeepsWorker(pc: P.WorkerPc, pc': P.WorkerPc, wk: Worker, th: L.Thread, id: nat)
    requires Glued(pc, wk, th) && Balanced(wk, id) && Tallied(wk)
    requires pc.Handling? && !pc'.Handling? ==> wk.phase == Returned
    ensures var wk' := PhaseAfter(wk, pc, pc');
            && Glued(pc', wk', th) && Balanced(wk', id) && Tallied(wk')
            && wk'.formatted == wk.formatted && Unsent(wk'.phase) == Unsent(wk.phase)
  {
  }

  // ---------------------------------------------------------------- handling steps

  lemma ReadLineKeepsBalance(wk: Worker, k: nat, o: Outcome, id: nat)
    requires Balanced(wk, id) && wk.phase.Reading?
    ensures Balanced(ReadLine(wk, k, o), id)
  {
  }

  lemma LedgerGrows(fs: seq<Formatted>, f: Formatted, id: nat)
    requires Ledger(fs, id) && f.rec.Printable() && f.rec.stats.id == id
    requires f.rec.stats.statReq + f.rec.stats.dynmReq == |fs| + 1 - EmptyCount(fs)
    requires f.rec.stats.statReq + f.rec.stats.dynmReq + f.rec.stats.postReq <= f.rec.stats.totalReq
    requires forall k | 0 <= k < |fs| :: fs[k].rec.stats.totalReq < f.rec.stats.totalReq
    ensures Ledger(fs + [f], id) && EmptyCount(fs + [f]) == EmptyCount(fs) + if f.empty then 1 else 0
  {
    var gs := fs + [f];
    assert gs[..|fs|] == fs;
    forall k: nat | k < |gs| ensures RecordFits(gs, k, id) {
      if k < |fs| {
        assert RecordFits(fs, k, id);
        assert gs[..k] == fs[..k];
      }
    }
  }

  /** Counting a request and formatting its record keeps what every record and every counter must be. */
  lemma BranchKeepsBalance(wk: Worker, k: nat, o: Outcome, rec: Record, id: nat)
    requires Balanced(wk, id) && wk.phase == Counted(o) && !o.NoLine?
    requires rec.Printable() && rec.stats == CountKind(wk.stats, o)
    ensures Balanced(Branch(wk, k, o, rec), id)
  {
    if IsLogged(o) {
      LoggedBranchKeepsBalance(wk, k, o, rec, id);
    }
  }

  lemma LoggedBranchKeepsBalance(wk: Worker, k: nat, o: Outcome, rec: Record, id: nat)
    requires Balanced(wk, id) && wk.phase == Counted(o) && IsLogged(o)
    requires rec.Printable() && rec.stats == CountKind(wk.stats, o)
    ensures Balanced(Branch(wk, k, o, rec), id)
  {
    LedgerGrows(wk.formatted, Formatted(k, rec, IsEmptyFile(o)), id);
    LoggedBranchReckons(wk, k, o, rec, id);
  }

  lemma LoggedBranchReckons(wk: Worker, k: nat, o: Outcome, rec: Record, id: nat)
    requires Reckoned(wk, id) && wk.phase == Counted(o) && IsLogged(o) && rec.stats == CountKind(wk.stats, o)
    requires EmptyCount(wk.formatted + [Formatted(k, rec, IsEmptyFile(o))])
          == EmptyCount(wk.formatted) + if IsEmptyFile(o) then 1 else 0
    ensures Reckoned(Branch(wk, k, o, rec), id)
  {
  }

  lemma ServeKeepsBalance(wk: Worker, id: nat)
    requires Balanced(wk, id) && wk.phase.Serving?
    ensures (wk.phase.empty ==> wk.stats.statReq > 0) && Balanced(Serve(wk), id)
  {
  }

  lemma ServeKeepsTally(wk: Worker)
    requires Tallied(wk) && wk.phase.Serving? && (wk.phase.empty ==> wk.stats.statReq > 0)
    ensures Tallied(Serve(wk))
  {
  }

  /** The interval and the arrival stamp handed to a request can be printed. */
  lemma RequestIsPrintable(s: State, w: nat, st: Stats)
    requires PI.Inv(s.pool) && w < |s.pool.workers| && s.pool.workers[w].Handling?
    ensures RecordNow(s, w, st).Printable()
  {
    assert PI.IntervalCorrect(s.pool.dispatched, s.pool.workers[w]);
  }

  lemma TextsGrow(fs: seq<Formatted>, f: Formatted)
    requires forall k | 0 <= k < |fs| :: fs[k].rec.Printable()
    requires f.rec.Printable()
    ensures forall k | 0 <= k < |fs| + 1 :: (fs + [f])[k].rec.Printable()
    ensures Texts(fs + [f]) == Texts(fs) + [Block(f.rec)]
  {
  }

  /** A worker replaced by one that is as fine, with the same text accounted for. */
  ghost predicate Replaces(s: State, w: nat, wk: Worker)
    requires Sized(s) && w < |s.workers|
  {
    && Glued(s.pool.workers[w], wk, s.log.threads[w])
    && Balanced(wk, w + 1)
    && Tallied(wk)
    && (forall k | 0 <= k < |wk.formatted| :: wk.formatted[k].rec.Printable())
    && LS.Account(s.log, w) + Unsent(wk.phase) == Texts(wk.formatted)
  }

  lemma ReadingStep(s: State, w: nat, o: Outcome)
    requires Sized(s) && w < |s.workers| && WorkerFine(s, w) && s.workers[w].phase.Reading?
    ensures Replaces(s, w, ReadLine(s.workers[w], s.workers[w].phase.k, o))
  {
    ReadLineKeepsBalance(s.workers[w], s.workers[w].phase.k, o, w + 1);
    ReadLineKeepsTally(s.workers[w], s.workers[w].phase.k, o);
  }

  lemma BranchStep(s: State, w: nat, o: Outcome)
    requires Sized(s) && w < |s.workers| && WorkerFine(s, w) && PI.Inv(s.pool)
    requires s.workers[w].phase == Counted(o) && s.pool.workers[w].Handling?
    ensures var rec := RecordNow(s, w, CountKind(s.workers[w].stats, o));
            Replaces(s, w, Branch(s.workers[w], s.pool.workers[w].k, o, rec))
  {
    var rec := RecordNow(s, w, CountKind(s.workers[w].stats, o));
    RequestIsPrintable(s, w, rec.stats);
    var k := s.pool.workers[w].k;
    BranchKeepsBalance(s.workers[w], k, o, rec, w + 1);
    BranchKeepsTally(s.workers[w], k, o, rec);
    BranchKeepsText(s.workers[w], k, o, rec, LS.Account(s.log, w));
  }

  lemma BranchKeepsText(wk: Worker, k: nat, o: Outcome, rec: Record, account: seq<string>)
    requires wk.phase == Counted(o) && rec.Printable()
    requires (forall k | 0 <= k < |wk.formatted| :: wk.formatted[k].rec.Printable())
    requires account + Unsent(wk.phase) == Texts(wk.formatted)
    ensures var wk' := Branch(wk, k, o, rec);
            && (forall k | 0 <= k < |wk'.formatted| :: wk'.formatted[k].rec.Printable())
            && account + Unsent(wk'.phase) == Texts(wk'.formatted)
  {
    TextsGrow(wk.formatted, Formatted(k, rec, IsEmptyFile(o)));
    assert account + [] == account;
  }

  lemma ServingStep(s: State, w: nat)
    requires Sized(s) && w < |s.workers| && WorkerFine(s, w) && s.workers[w].phase.Serving?
    ensures (s.workers[w].phase.empty ==> s.workers[w].stats.statReq > 0) && Replaces(s, w, Serve(s.workers[w]))
  {
    ServeKeepsBalance(s.workers[w], w + 1);
    ServeKeepsTally(s.workers[w]);
  }

  lemma ReturningStep(s: State, w: nat)
    requires Sized(s) && w < |s.workers| && WorkerFine(s, w) && s.workers[w].phase == InLog && LogCallDone(s, w)
    ensures Replaces(s, w, s.workers[w].(phase := Returned))
  {
  }

  /** Steps of one worker that leave the log alone. */
  lemma LocalStepKeepsWorker(s: State, w: nat, o: Outcome)
    requires Inv(s) && CanHandle(s, w, o) && !s.workers[w].phase.Appending? && !s.workers[w].phase.Fetching?
    ensures var s' := HandleStep(s, w, o);
            s'.log == s.log && s'.pool == s.pool && |s'.workers| == |s.workers| && WorkerFine(s', w)
  {
    assert WorkerFine(s, w);
    match s.workers[w].phase
    case Reading(_) => ReadingStep(s, w, o);
    case Counted(outcome) => BranchStep(s, w, outcome);
    case Serving(_, _) => ServingStep(s, w);
    case InLog => ReturningStep(s, w);
    case _ =>
  }

  lemma SubmitKeepsLog(s: L.State, w: nat, op: L.Op)
    requires LS.Inv(s) && w < |s.threads| && s.threads[w] == L.Thread(L.Idle, [])
    ensures LS.Inv(L.Submit(s, w, op))
    ensures LS.Account(L.Submit(s, w, op), w) == LS.Account(s, w) + LS.Appends([op])
  {
    var s' := L.Submit(s, w, op);
    LC.TallyUpdate(s.threads, w, s'.threads[w]);
    forall t: nat | t < |s.threads| ensures LC.HoldsMutex(s'.threads[t].pc) <==> s'.mutex == L.Held(t) {
      assert LC.HoldsMutex(s.threads[t].pc) <==> s.mutex == L.Held(t);
    }
    SubmitKeepsData(s, w, op);
    assert LS.Account(s, w) == LS.Mine(s.history, w) + [];
    assert [] + [op] == [op];
  }

  lemma SubmitKeepsData(s: L.State, w: nat, op: L.Op)
    requires LD.Data(s) && w < |s.threads| && s.threads[w] == L.Thread(L.Idle, [])
    ensures LD.Data(L.Submit(s, w, op))
  {
    var s' := L.Submit(s, w, op);
    forall t: nat | t < |s.threads|
      ensures LD.WriterData(s'.buffer, s'.usage, LD.Text(s'.history), L.DataOf(s', t), s'.threads[t].pc)
      ensures LD.ReaderData(s'.history, s'.usage, s'.threads[t].pc)
    {
      assert LD.WriterData(s.buffer, s.usage, LD.Text(s.history), L.DataOf(s, t), s.threads[t].pc);
      assert LD.ReaderData(s.history, s.usage, s.threads[t].pc);
    }
  }

  lemma CallKeepsCounters(wk: Worker, id: nat)
    requires Balanced(wk, id) && Tallied(wk) && (wk.phase.Appending? || wk.phase.Fetching?)
    ensures Balanced(wk.(phase := InLog), id) && Tallied(wk.(phase := InLog))
  {
  }

  lemma CallKeepsText(wk: Worker, account: seq<string>, op: L.Op)
    requires wk.phase.Appending? || wk.phase.Fetching?
    requires LS.Appends([op]) == Unsent(wk.phase)
    ensures account + LS.Appends([op]) + Unsent(InLog) == account + Unsent(wk.phase)
  {
  }

  /** Handing a call to the log moves its text from the worker's unsent to the log's account. */
  lemma CallKeepsWorker(s: State, w: nat, op: L.Op)
    requires Sized(s) && w < |s.workers| && WorkerFine(s, w) && LS.Inv(s.log)
    requires s.log.threads[w] == L.Thread(L.Idle, [])
    requires s.workers[w].phase.Appending? || s.workers[w].phase.Fetching?
    requires LS.Appends([op]) == Unsent(s.workers[w].phase)
    ensures var s' := SetWorker(s, w, s.workers[w].(phase := InLog)).(log := L.Submit(s.log, w, op));
            && s'.pool == s.pool && |s'.workers| == |s.workers| && Sized(s') && LS.Inv(s'.log)
            && s'.log.history == s.log.history && WorkerFine(s', w)
  {
    SubmitKeepsLog(s.log, w, op);
    CallKeepsCounters(s.workers[w], w + 1);
    CallKeepsText(s.workers[w], LS.Account(s.log, w), op);
  }

  lemma CallStepKeepsWorker(s: State, w: nat, o: Outcome)
    requires Inv(s) && CanHandle(s, w, o) && (s.workers[w].phase.Appending? || s.workers[w].phase.Fetching?)
    ensures var s' := HandleStep(s, w, o);
            && s'.pool == s.pool && |s'.workers| == |s.workers| && Sized(s') && LS.Inv(s'.log)
            && s'.log.history == s.log.history && WorkerFine(s', w)
  {
    assert WorkerFine(s, w);
    var wk := s.workers[w];
    var op := if wk.phase.Fetching? then L.GetLog else L.AddToLog(Block(wk.phase.rec));
    assert [op][1..] == [];
    if wk.phase.Appending? {
      BlockIsLong(wk.phase.rec);
    }
    CallKeepsWorker(s, w, op);
  }

  /** A handling step of one worker does not concern the others. */
  lemma OtherWorkerStays(s: State, w: nat, o: Outcome, u: nat)
    requires Inv(s) && CanHandle(s, w, o) && u < |s.workers| && u != w
    ensures var s' := HandleStep(s, w, o); Sized(s') && WorkerFine(s', u)
  {
    assert WorkerFine(s, u);
  }

  lemma HandleStepKeepsInv(s: State, w: nat, o: Outcome)
    requires Inv(s) && CanHandle(s, w, o)
    ensures Inv(HandleStep(s, w, o))
  {
    if s.workers[w].phase.Appending? || s.workers[w].phase.Fetching? {
      CallStepKeepsWorker(s, w, o);
    } else {
      LocalStepKeepsWorker(s, w, o);
    }
    forall u: nat | u < |s.workers| ensures WorkerFine(HandleStep(s, w, o), u) {
      if u != w {
        OtherWorkerStays(s, w, o, u);
      }
    }
  }

  lemma StepKeepsInv(s: State, a: Action)
    requires Inv(s) && Enabled(s, a)
    ensures Inv(Apply(s, a))
  {
    match a
    case PoolStep(p) => PoolStepKeepsInv(s, p);
    case LogStep(l) => LogStepKeepsInv(s, l);
    case Handle(w, o) => HandleStepKeepsInv(s, w, o);
  }
}
