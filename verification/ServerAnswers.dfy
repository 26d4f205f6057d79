/** What every record shows and what every POST gets: the counters in a record are those of its thread when its
    request had been counted, and every POST is answered once, while its connection is being handled. */
module ServerAnswers {
  import opened Runs
  import P = PoolMachine
  import PI = PoolInvariant
  import L = LogMachine
  import LC = LogControl
  import LS = LogSafety
  import opened Records
  import opened RequestLine
  import opened Requests
  import opened ServerMachine
  import opened ServerInvariant
  import opened ServerRequests
  import opened ServerTheorems

  // ---------------------------------------------------------------- per worker

  /** The POSTs of a series. */
  function PostsOf(hs: seq<Handled>): (r: seq<Handled>)
    ensures |r| <= |hs|
  {
    if hs == [] then [] else PostsOf(hs[..|hs| - 1]) + if Last(hs).o.Post? then [Last(hs)] else []
  }

  function NewStats(id: nat): Stats
  {
    Stats(id, 0, 0, 0, 0)
  }

  /** Each record shows the counters with the requests before its own, and its own, counted. */
  ghost predicate Numbered(wk: Worker)
  {
    var shown := SeriesLogged(NewStats(wk.stats.id), Branched(wk));
    && |wk.formatted| == |shown|
    && forall m | 0 <= m < |shown| :: wk.formatted[m].rec.stats == shown[m]
  }

  /** Each POST has asked the log once, or is about to. `calls` counts answers and calls under way. */
  ghost predicate Asked(wk: Worker, calls: nat)
  {
    calls + (if wk.phase.Fetching? then 1 else 0) == |PostsOf(Branched(wk))|
  }

  ghost predicate ToldAt(s: State, w: nat)
    requires Sized(s) && w < |s.workers|
  {
    Numbered(s.workers[w]) && Asked(s.workers[w], LS.Reads(s.log, w))
  }

  ghost predicate AllTold(s: State)
    requires Sized(s)
  {
    forall w: nat | w < |s.workers| :: ToldAt(s, w)
  }

  ghost predicate Complete(s: State)
  {
    Full(s) && AllTold(s)
  }

  lemma InitComplete(s: State)
    requires Init(s)
    ensures Complete(s)
  {
    InitFull(s);
    forall w: nat | w < |s.workers| ensures s.workers[w] == NewWorker(w) && ToldAt(s, w) {}
  }

  // ---------------------------------------------------------------- handling steps

  lemma PostsGrow(hs: seq<Handled>, h: Handled)
    ensures PostsOf(hs + [h]) == PostsOf(hs) + if h.o.Post? then [h] else []
  {
    assert (hs + [h])[..|hs|] == hs;
  }

  lemma SeriesLoggedGrows(st: Stats, hs: seq<Handled>, h: Handled)
    ensures SeriesLogged(st, hs + [h])
         == SeriesLogged(st, hs) + if IsLogged(h.o) then [StatsLogged(StatsAfterAll(st, hs), h.o)] else []
  {
    assert (hs + [h])[..|hs|] == hs;
  }

  lemma ReadLineTold(wk: Worker, k: nat, o: Outcome, calls: nat)
    requires Numbered(wk) && Asked(wk, calls) && wk.phase.Reading?
    ensures Numbered(ReadLine(wk, k, o)) && Asked(ReadLine(wk, k, o), calls)
  {
    var wk' := ReadLine(wk, k, o);
    assert Branched(wk) == wk.handled;
    if o.NoLine? {
      assert Branched(wk') == wk.handled + [Handled(k, o)];
      SeriesLoggedGrows(NewStats(wk.stats.id), wk.handled, Handled(k, o));
      PostsGrow(wk.handled, Handled(k, o));
    } else {
      assert Branched(wk') == wk.handled;
    }
  }

  /** With the request read and counted but its branch not taken, the counters are those of the series before
      it, with the total already raised. */
  lemma CountedStats(wk: Worker)
    requires Tallied(wk) && wk.phase.Counted? && !wk.phase.o.NoLine?
    ensures wk.stats == CountRequest(StatsAfterAll(NewStats(wk.stats.id), Branched(wk)))
  {
    var last := wk.handled[|wk.handled| - 1];
    assert wk.handled == Branched(wk) + [last];
    KindCountGrows(Branched(wk), last, DroppedKind);
    SeriesAddsUp(NewStats(wk.stats.id), Branched(wk));
  }

  lemma BranchTold(wk: Worker, k: nat, rec: Record, calls: nat)
    requires Numbered(wk) && Asked(wk, calls) && Tallied(wk) && wk.phase.Counted? && !wk.phase.o.NoLine?
    requires rec.stats == CountKind(wk.stats, wk.phase.o)
    ensures Numbered(Branch(wk, k, wk.phase.o, rec)) && Asked(Branch(wk, k, wk.phase.o, rec), calls)
  {
    var wk', last := Branch(wk, k, wk.phase.o, rec), Last(wk.handled);
    assert Branched(wk') == wk.handled == Branched(wk) + [last];
    CountedStats(wk);
    BranchNumbers(wk, wk', last, rec);
    PostsGrow(Branched(wk), last);
  }

  lemma BranchNumbers(wk: Worker, wk': Worker, last: Handled, rec: Record)
    requires Numbered(wk) && wk'.stats.id == wk.stats.id && Branched(wk') == Branched(wk) + [last]
    requires IsLogged(last.o) ==>
               && |wk'.formatted| == |wk.formatted| + 1 && wk'.formatted[..|wk.formatted|] == wk.formatted
               && wk'.formatted[|wk.formatted|].rec == rec
               && rec.stats == StatsLogged(StatsAfterAll(NewStats(wk.stats.id), Branched(wk)), last.o)
    requires !IsLogged(last.o) ==> wk'.formatted == wk.formatted
    ensures Numbered(wk')
  {
    SeriesLoggedGrows(NewStats(wk.stats.id), Branched(wk), last);
    forall m | 0 <= m < |wk.formatted| && IsLogged(last.o) ensures wk'.formatted[m] == wk.formatted[m] {
      assert wk'.formatted[..|wk.formatted|][m] == wk.formatted[m];
    }
  }

  lemma SubmitReads(s: L.State, w: nat, op: L.Op)
    requires w < |s.threads| && s.threads[w] == L.Thread(L.Idle, [])
    ensures LS.Reads(L.Submit(s, w, op), w) == LS.Reads(s, w) + if op.GetLog? then 1 else 0
  {
    assert [] + [op] == [op] && [op][1..] == [];
  }

  lemma MovingOnTold(s: State, w: nat, o: Outcome)
    requires Sized(s) && CanHandle(s, w, o) && ToldAt(s, w)
    requires Glued(s.pool.workers[w], s.workers[w], s.log.threads[w])
    requires !s.workers[w].phase.Reading? && !s.workers[w].phase.Counted?
    ensures Sized(HandleStep(s, w, o)) && ToldAt(HandleStep(s, w, o), w)
  {
    var wk, wk' := s.workers[w], HandleStep(s, w, o).workers[w];
    assert Branched(wk') == Branched(wk);
    match wk.phase
    case Appending(rec) => SubmitReads(s.log, w, L.AddToLog(Block(rec)));
    case Fetching => SubmitReads(s.log, w, L.GetLog);
    case _ =>
  }

  lemma HandleTells(s: State, w: nat, o: Outcome)
    requires Sized(s) && CanHandle(s, w, o) && ToldAt(s, w) && WorkerFine(s, w)
    ensures Sized(HandleStep(s, w, o)) && ToldAt(HandleStep(s, w, o), w)
  {
    var wk, calls := s.workers[w], LS.Reads(s.log, w);
    match wk.phase
    case Reading(k) => ReadLineTold(wk, k, o, calls);
    case Counted(branch) => BranchTold(wk, s.pool.workers[w].k, RecordNow(s, w, CountKind(wk.stats, branch)), calls);
    case _ => MovingOnTold(s, w, o);
  }

  lemma OthersStayTold(s: State, w: nat, o: Outcome, u: nat)
    requires Sized(s) && CanHandle(s, w, o) && u < |s.workers| && u != w && ToldAt(s, u)
    ensures Sized(HandleStep(s, w, o)) && ToldAt(HandleStep(s, w, o), u)
  {
  }

  // ---------------------------------------------------------------- all steps

  lemma HandleKeepsTold(s: State, w: nat, o: Outcome)
    requires Complete(s) && CanHandle(s, w, o)
    ensures Sized(HandleStep(s, w, o)) && AllTold(HandleStep(s, w, o))
  {
    HandleFrame(s, w, o);
    assert WorkerFine(s, w) && ToldAt(s, w);
    HandleTells(s, w, o);
    forall u: nat | u < |s.workers| ensures ToldAt(HandleStep(s, w, o), u) {
      if u != w {
        OthersStayTold(s, w, o, u);
      }
    }
  }

  lemma LogStepKeepsTold(s: State, l: L.Action)
    requires Sized(s) && AllTold(s) && LC.Control(s.log) && L.Enabled(s.log, l)
    ensures Sized(s.(log := L.Apply(s.log, l))) && AllTold(s.(log := L.Apply(s.log, l)))
  {
    LS.StepFrame(s.log, l);
    forall w: nat | w < |s.workers| ensures ToldAt(s.(log := L.Apply(s.log, l)), w) {
      assert ToldAt(s, w);
      LS.StepKeepsReads(s.log, l, w);
    }
  }

  lemma PhaseAfterTold(wk: Worker, pc: P.WorkerPc, pc': P.WorkerPc, calls: nat)
    requires Numbered(wk) && Asked(wk, calls)
    requires !pc.Handling? ==> wk.phase.Outside?
    requires pc.Handling? && !pc'.Handling? ==> wk.phase == Returned
    ensures Numbered(PhaseAfter(wk, pc, pc')) && Asked(PhaseAfter(wk, pc, pc'), calls)
  {
    assert Branched(PhaseAfter(wk, pc, pc')) == Branched(wk);
  }

  lemma PoolStepKeepsTold(s: State, p: P.Action)
    requires Sized(s) && AllTold(s) && Enabled(s, PoolStep(p)) && WorkersFine(s)
    ensures Sized(Apply(s, PoolStep(p))) && AllTold(Apply(s, PoolStep(p)))
  {
    var s' := Apply(s, PoolStep(p));
    PoolFrame(s.pool, p);
    forall w: nat | w < |s.workers| ensures ToldAt(s', w) {
      assert ToldAt(s, w) && WorkerFine(s, w);
      if p.Worker? && p.w == w {
        PhaseAfterTold(s.workers[w], s.pool.workers[w], s'.pool.workers[w], LS.Reads(s.log, w));
      }
    }
  }

  lemma StepKeepsComplete(s: State, a: Action)
    requires Complete(s) && Enabled(s, a)
    ensures Complete(Apply(s, a))
  {
    StepKeepsFull(s, a);
    match a
    case PoolStep(p) => PoolStepKeepsTold(s, p);
    case LogStep(l) => LogStepKeepsTold(s, l);
    case Handle(w, o) => HandleKeepsTold(s, w, o);
  }

  lemma NextKeepsComplete(s: State, s': State)
    requires Complete(s) && Next(s, s')
    ensures Complete(s')
  {
    var a :| Enabled(s, a) && s' == Apply(s, a);
    StepKeepsComplete(s, a);
  }

  lemma ReachableComplete(run: seq<State>, i: nat)
    requires FiniteRun(run, Init, Next) && i < |run|
    ensures Complete(run[i])
  {
    forall s | Init(s) ensures Complete(s) { InitComplete(s); }
    forall s, s' | Complete(s) && Next(s, s') ensures Complete(s') { NextKeepsComplete(s, s'); }
    InvariantOnRun(run, Init, Next, Complete, i);
  }

  // ---------------------------------------------------------------- what a record shows

  /** `st` are the counters of thread `id` after the requests `before` and, counted but not finished, one more
      static or dynamic request that turned out to be `o`. */
  predicate Shows(st: Stats, id: nat, before: seq<Handled>, o: Outcome)
  {
    && (o.Static? || o.Dynamic?)
    && st.id == id
    && st.totalReq == |before| - KindCount(before, DroppedKind) + 1
    && st.statReq == KindCount(before, StaticKind) + (if o.Static? then 1 else 0)
    && st.dynmReq == KindCount(before, DynamicKind) + (if o.Dynamic? then 1 else 0)
    && st.postReq == KindCount(before, PostKind)
  }

  lemma {:induction false} SeriesLoggedAt(st: Stats, hs: seq<Handled>, p: nat) returns (q: nat)
    requires p < |SeriesLogged(st, hs)|
    ensures q < |hs| && p < |LoggedOf(hs)| && LoggedOf(hs)[p] == hs[q]
    ensures SeriesLogged(st, hs)[p] == StatsLogged(StatsAfterAll(st, hs[..q]), hs[q].o) && IsLogged(hs[q].o)
    ensures |SeriesLogged(st, hs)| == |LoggedOf(hs)|
  {
    var init := hs[..|hs| - 1];
    SameLengths(st, init);
    if p < |SeriesLogged(st, init)| {
      q := SeriesLoggedAt(st, init, p);
      assert init[..q] == hs[..q];
    } else {
      q := |hs| - 1;
    }
  }

  lemma {:induction false} SameLengths(st: Stats, hs: seq<Handled>)
    ensures |SeriesLogged(st, hs)| == |LoggedOf(hs)|
  {
    if hs != [] {
      SameLengths(st, hs[..|hs| - 1]);
    }
  }

  lemma FormattedShows(wk: Worker, p: nat) returns (q: nat)
    requires Matching(wk) && Numbered(wk) && p < |wk.formatted|
    ensures q < |wk.handled| && wk.handled[q].k == wk.formatted[p].k
    ensures Shows(wk.formatted[p].rec.stats, wk.stats.id, wk.handled[..q], wk.handled[q].o)
  {
    var st, hs := NewStats(wk.stats.id), Branched(wk);
    q := SeriesLoggedAt(st, hs, p);
    assert hs[..q] == wk.handled[..q];
    SeriesAddsUp(st, hs[..q]);
  }

  lemma RecordShows(s: State, w: nat, p: nat) returns (q: nat)
    requires Sized(s) && w < |s.workers| && WorkerFine(s, w) && TracedAt(s, w) && ToldAt(s, w)
    requires p < |s.workers[w].formatted|
    ensures q < |s.workers[w].handled| && s.workers[w].handled[q].k == s.workers[w].formatted[p].k
    ensures Shows(s.workers[w].formatted[p].rec.stats, w + 1, s.workers[w].handled[..q], s.workers[w].handled[q].o)
  {
    q := FormattedShows(s.workers[w], p);
  }

  /** In every reachable state every entry of the log, read as `rec`, is the record of some request `q` of its
      writer, and shows, each under its own name, how many requests of each kind that thread had before it,
      with this one counted. */
  lemma RecordCounters(run: seq<State>, i: nat, e: nat, rec: Record) returns (q: nat)
    requires FiniteRun(run, Init, Next) && i < |run| && EntryIs(run[i], e, rec)
    ensures var w := run[i].log.history[e].writer;
            var hs := run[i].workers[w].handled;
            q < |hs| && EntryFor(run[i], e, w, hs[q].k) && Shows(rec.stats, w + 1, hs[..q], hs[q].o)
  {
    ReachableComplete(run, i);
    var s := run[i];
    var w := s.log.history[e].writer;
    assert WorkerFine(s, w) && TracedAt(s, w) && ToldAt(s, w);
    q := RecordShows(s, w, Position(s.log.history, e));
  }

  // ---------------------------------------------------------------- every POST asks once

  lemma {:induction false} PostsAreKind(hs: seq<Handled>)
    ensures |PostsOf(hs)| == KindCount(hs, PostKind)
  {
    if hs != [] {
      PostsAreKind(hs[..|hs| - 1]);
    }
  }

  /** In every reachable state a worker's answers from the log, its calls of get_log under way, and the call it
      is about to make are together as many as the POSTs whose branch it has taken. */
  lemma PostsAreAsked(run: seq<State>, i: nat, w: nat)
    requires FiniteRun(run, Init, Next) && i < |run| && w < |run[i].workers|
    ensures var s := run[i];
            && w < |s.log.threads|
            && LS.Taken(s.log.snapshots, w) + LS.Gets(s.log.threads[w].todo)
                 + (if s.workers[w].phase.Fetching? then 1 else 0)
               == KindCount(Branched(s.workers[w]), PostKind)
  {
    ReachableComplete(run, i);
    assert ToldAt(run[i], w);
    PostsAreKind(Branched(run[i].workers[w]));
  }
}
