/** What the whole server guarantees in every reachable state: accounting, a log that decodes, and answers
    that contain the record of every request finished before. */
module ServerTheorems {
  import opened Sums
  import opened Runs
  import P = PoolMachine
  import PI = PoolInvariant
  import L = LogMachine
  import LC = LogControl
  import LD = LogData
  import LS = LogSafety
  import opened Clock
  import opened Format
  import opened Records
  import opened RequestLine
  import opened Requests
  import opened ServerMachine
  import opened ServerInvariant
  import opened ServerRequests

  lemma ReachableInv(run: seq<State>, i: nat)
    requires FiniteRun(run, Init, Next) && i < |run|
    ensures Inv(run[i])
  {
    ReachableFull(run, i);
  }

  // ---------------------------------------------------------------- steps and calls agree

  /** Running the handling steps of one request in order gives the counters and the logged record that
      the imperative `ThreadStats.Handle` promises. */
  lemma StepsMatchCall(wk: Worker, k: nat, o: Outcome, arrival: Timeval, dispatch: Timeval)
    ensures o.NoLine? ==> ReadLine(wk, k, o).stats == StatsAfter(wk.stats, o)
    ensures !o.NoLine? ==>
              var read := ReadLine(wk, k, o);
              var branched := Branch(read, k, o, Record(arrival, dispatch, CountKind(read.stats, o)));
              && (branched.phase.Serving? <==> IsLogged(o))
              && (branched.phase == Fetching <==> o.Post?)
              && (branched.phase.Serving? ==>
                    && branched.phase.rec == Logged(arrival, dispatch, wk.stats, o)
                    && branched.formatted
                         == wk.formatted + [Formatted(k, Logged(arrival, dispatch, wk.stats, o), IsEmptyFile(o))]
                    && (branched.phase.empty ==> branched.stats.statReq > 0)
                    && Serve(branched).phase == Appending(branched.phase.rec)
                    && Serve(branched).stats == StatsAfter(wk.stats, o))
              && (!branched.phase.Serving? ==> branched.stats == StatsAfter(wk.stats, o))
  {
  }

  // ---------------------------------------------------------------- accounting

  /** Records per worker, over the first `n` workers: in the log, on their way, and by the counters. */
  function WrittenCount(h: seq<L.Entry>, n: nat): nat
  {
    if n == 0 then 0 else WrittenCount(h, n - 1) + |LS.Mine(h, n - 1)|
  }

  ghost function Pending(s: State, n: nat): nat
    requires n <= |s.workers| && n <= |s.log.threads|
  {
    if n == 0 then 0
    else Pending(s, n - 1) + |LS.Appends(s.log.threads[n - 1].todo)| + |Unsent(s.workers[n - 1].phase)|
  }

  function Served(ws: seq<Worker>, n: nat): nat
    requires n <= |ws|
  {
    if n == 0 then 0
    else Served(ws, n - 1) + ws[n - 1].stats.statReq + ws[n - 1].stats.dynmReq + ws[n - 1].undone
  }

  lemma {:induction false} WrittenCountGrows(h: seq<L.Entry>, e: L.Entry, n: nat)
    ensures WrittenCount(h + [e], n) == WrittenCount(h, n) + if e.writer < n then 1 else 0
  {
    if n > 0 {
      WrittenCountGrows(h, e, n - 1);
      LS.MineAppend(h, e, n - 1);
    }
  }

  /** Every entry belongs to exactly one worker. */
  lemma {:induction false} WrittenIsAll(h: seq<L.Entry>, n: nat)
    requires WritersKnown(h, n)
    ensures WrittenCount(h, n) == |h|
  {
    if h == [] {
      NothingWritten(n);
    } else {
      var init := h[..|h| - 1];
      assert h == init + [h[|h| - 1]];
      WrittenIsAll(init, n);
      WrittenCountGrows(init, h[|h| - 1], n);
    }
  }

  lemma {:induction false} NothingWritten(n: nat)
    ensures WrittenCount([], n) == 0
  {
    if n > 0 {
      NothingWritten(n - 1);
    }
  }

  /** Records of one worker in the log, handed to it, and unsent are those its counters count. */
  ghost predicate AddsUp(s: State, w: nat)
    requires w < |s.workers| && w < |s.log.threads|
  {
    var wk := s.workers[w];
    |LS.Mine(s.log.history, w)| + |LS.Appends(s.log.threads[w].todo)| + |Unsent(wk.phase)|
      == wk.stats.statReq + wk.stats.dynmReq + wk.undone
  }

  lemma WorkerAddsUp(s: State, w: nat)
    requires Sized(s) && w < |s.workers| && WorkerFine(s, w)
    ensures AddsUp(s, w)
  {
  }

  lemma {:induction false} SumsAddUp(s: State, n: nat)
    requires Sized(s) && n <= |s.workers| && forall w: nat | w < n :: AddsUp(s, w)
    ensures WrittenCount(s.log.history, n) + Pending(s, n) == Served(s.workers, n)
  {
    if n > 0 {
      SumsAddUp(s, n - 1);
      assert AddsUp(s, n - 1);
    }
  }

  lemma AccountsAddUp(s: State, n: nat)
    requires Inv(s) && n <= |s.workers|
    ensures WrittenCount(s.log.history, n) + Pending(s, n) == Served(s.workers, n)
  {
    forall w: nat | w < n ensures AddsUp(s, w) {
      assert WorkerFine(s, w);
      WorkerAddsUp(s, w);
    }
    SumsAddUp(s, n);
  }

  /** In every reachable state, log records plus appends on their way equal the static and dynamic
      requests counted by all workers plus the empty-file requests already taken back. */
  lemma LogMatchesCounters(run: seq<State>, i: nat)
    requires FiniteRun(run, Init, Next) && i < |run|
    ensures var s := run[i];
            && |s.workers| == |s.log.threads|
            && |s.log.history| + Pending(s, |s.workers|) == Served(s.workers, |s.workers|)
  {
    ReachableInv(run, i);
    AccountsAddUp(run[i], |run[i].workers|);
    WrittenIsAll(run[i].log.history, |run[i].workers|);
  }

  /** Between requests the counters of a worker are what its series of requests makes of new ones: each is
      the number of requests of its kind, the total is the sum of the kinds and the error responses, and as
      many static requests have been taken back as its records name empty files. */
  lemma TotalsAddUp(run: seq<State>, i: nat, w: nat)
    requires FiniteRun(run, Init, Next) && i < |run| && w < |run[i].workers|
    requires run[i].workers[w].phase.Outside?
    ensures var wk := run[i].workers[w];
            && wk.stats.totalReq == wk.stats.statReq + wk.stats.dynmReq + wk.stats.postReq + wk.errors
            && wk.stats.id == w + 1
            && wk.undone == EmptyCount(wk.formatted)
            && wk.stats == StatsAfterAll(NewWorker(w).stats, wk.handled)
            && wk.stats.totalReq == |wk.handled| - KindCount(wk.handled, DroppedKind)
            && wk.stats.statReq == KindCount(wk.handled, StaticKind)
            && wk.stats.dynmReq == KindCount(wk.handled, DynamicKind)
            && wk.stats.postReq == KindCount(wk.handled, PostKind)
            && wk.errors == KindCount(wk.handled, ErrorKind)
  {
    ReachableInv(run, i);
    assert WorkerFine(run[i], w);
    SeriesAddsUp(NewWorker(w).stats, run[i].workers[w].handled);
  }

  /** Every dispatched request has come to exactly one worker, exactly once, and is in its series of
      requests as soon as its request line has been read; no other request has come to anybody. */
  lemma EachRequestIsHandledOnce(run: seq<State>, i: nat, k: nat)
    requires FiniteRun(run, Init, Next) && i < |run|
    ensures Sum(run[i].workers, Has(k)) == if k < |run[i].pool.dispatched| then 1 else 0
    ensures run[i].pool.closed[k] > 0 ==>
              exists w: nat, m: nat ::
                w < |run[i].workers| && m < |run[i].workers[w].handled| && run[i].workers[w].handled[m].k == k
  {
    ReachableFull(run, i);
    if run[i].pool.closed[k] > 0 {
      var w, m := ClosedWasHandled(run[i], k);
      assert run[i].workers[w].handled[m].k == k;
    }
  }

  // ---------------------------------------------------------------- the log decodes

  /** Which of its writer's records entry `i` is: as many as entries of that writer come before it. */
  function Position(h: seq<L.Entry>, i: nat): nat
    requires i < |h|
  {
    |LS.Mine(h[..i], h[i].writer)|
  }

  lemma {:induction false} MineAt(h: seq<L.Entry>, i: nat)
    requires i < |h|
    ensures Position(h, i) < |LS.Mine(h, h[i].writer)| && LS.Mine(h, h[i].writer)[Position(h, i)] == h[i].data
  {
    var last := |h| - 1;
    if i < last {
      MineAt(h[..last], i);
      assert h[..last][..i] == h[..i];
    }
  }

  /** Entry `i` of the log is the record its writer formatted at that position. */
  ghost predicate EntryIs(s: State, i: nat, rec: Record)
  {
    && i < |s.log.history| && s.log.history[i].writer < |s.workers|
    && var fs := s.workers[s.log.history[i].writer].formatted;
       && Position(s.log.history, i) < |fs| && rec == fs[Position(s.log.history, i)].rec
       && rec.Printable() && s.log.history[i].data == Block(rec)
  }

  lemma EntryIsRecord(s: State, i: nat) returns (rec: Record)
    requires Inv(s) && i < |s.log.history|
    ensures EntryIs(s, i, rec)
  {
    var h := s.log.history;
    var w := h[i].writer;
    assert WorkerFine(s, w);
    MineAt(h, i);
    var k, fs := Position(h, i), s.workers[w].formatted;
    rec := fs[k].rec;
    assert Texts(fs)[k] == LS.Mine(h, w)[k];
  }

  lemma {:induction false} BlocksAppend(rs: seq<Record>, r: Record)
    requires AllPrintable(rs) && r.Printable()
    ensures AllPrintable(rs + [r]) && Blocks(rs + [r]) == Blocks(rs) + Block(r)
  {
    if rs == [] {
      assert [r][1..] == [] && Block(r) + "" == Block(r) && "" + Block(r) == Block(r);
    } else {
      BlocksAppend(rs[1..], r);
      assert (rs + [r])[1..] == rs[1..] + [r];
      Associate(Block(rs[0]), Blocks(rs[1..]), Block(r));
    }
  }

  lemma {:induction false} EntriesAreBlocks(s: State, n: nat) returns (rs: seq<Record>)
    requires Inv(s) && n <= |s.log.history|
    ensures |rs| == n && AllPrintable(rs) && Blocks(rs) == LD.Text(s.log.history[..n])
    ensures forall i: nat | i < n :: EntryIs(s, i, rs[i])
  {
    if n == 0 {
      rs := [];
    } else {
      var init := EntriesAreBlocks(s, n - 1);
      var rec := EntryIsRecord(s, n - 1);
      BlocksAppend(init, rec);
      rs := init + [rec];
      assert s.log.history[..n] == s.log.history[..n - 1] + [s.log.history[n - 1]];
      LD.TextAppend(s.log.history[..n - 1], s.log.history[n - 1]);
    }
  }

  /** In every reachable state the text of the first `n` entries decodes, to one record per entry: the
      record that the entry's writer formatted at that position. */
  lemma LogDecodes(run: seq<State>, i: nat, n: nat) returns (rs: seq<Record>)
    requires FiniteRun(run, Init, Next) && i < |run| && n <= |run[i].log.history|
    ensures Decode(LD.Text(run[i].log.history[..n])) == Some(rs)
    ensures |rs| == n && forall j: nat | j < n :: EntryIs(run[i], j, rs[j])
  {
    ReachableInv(run, i);
    rs := EntriesAreBlocks(run[i], n);
    DecodeUndoesBlocks(rs);
  }

  // ---------------------------------------------------------------- what a POST is told

  function Logs(run: seq<State>): (logs: seq<L.State>)
    ensures |logs| == |run|
    ensures forall i | 0 <= i < |run| :: logs[i] == run[i].log
  {
    seq(|run|, i requires 0 <= i < |run| => run[i].log)
  }

  lemma StepEvolves(s: State, a: Action)
    requires Enabled(s, a)
    ensures LS.Evolves(s.log, Apply(s, a).log)
  {
    match a
    case PoolStep(_) =>
    case LogStep(l) => LS.StepEvolves(s.log, l);
    case Handle(w, o) =>
      match s.workers[w].phase
      case Appending(rec) => LS.SubmitEvolves(s.log, w, L.AddToLog(Block(rec)));
      case _ => LS.SubmitEvolves(s.log, w, L.GetLog);
  }

  lemma NextEvolves(s: State, s': State)
    requires Next(s, s')
    ensures LS.Evolves(s.log, s'.log)
  {
    var a :| Enabled(s, a) && s' == Apply(s, a);
    StepEvolves(s, a);
  }

  /** The log inside the server is observed like a log on its own. */
  lemma LogsAreObserved(run: seq<State>)
    requires FiniteRun(run, Init, Next)
    ensures LS.Observed(Logs(run))
  {
    forall i: nat | 0 < i < |run| ensures LS.EvolvesAt(Logs(run), i) {
      assert StepsAt(run, Next, i);
      NextEvolves(run[i - 1], run[i]);
    }
  }

  /** Also inside the server: an entry finished before a call of `get_log` passes the gate is in its answer,
      at its place, and a call that passes the gate after another has returned answers with an extension. */
  lemma AnswersAreFresh(run: seq<State>, k: nat, j: nat, i: nat, x: L.Snapshot)
    requires FiniteRun(run, Init, Next) && LS.Linearized(Logs(run), j, i, x) && k <= j
    ensures x.result < |x.dst| && LD.Text(run[k].log.history) <= x.dst[..x.result]
  {
    LogsAreObserved(run);
    LS.ObservedAnswersAreFresh(Logs(run), k, j, i, x);
  }

  lemma LaterAnswersExtend(run: seq<State>, j: nat, i: nat, x: L.Snapshot, j': nat, i': nat, x': L.Snapshot)
    requires FiniteRun(run, Init, Next) && i <= j'
    requires LS.Linearized(Logs(run), j, i, x) && LS.Linearized(Logs(run), j', i', x')
    ensures x.result < |x.dst| && x'.result < |x'.dst| && x.dst[..x.result] <= x'.dst[..x'.result]
  {
    AnswersAreFresh(run, i, j', i', x');
  }

  lemma StepHasPriority(s: State, a: Action, t: nat)
    requires LC.Control(s.log) && Enabled(s, a) && t < |s.log.threads| && LC.WaitingToWrite(s.log.threads[t].pc)
    ensures var s' := Apply(s, a);
            && s'.log.counters.readers <= s.log.counters.readers
            && forall u: nat :: !LS.Admitted(s.log, s'.log, u)
  {
    if a.LogStep? {
      LS.WaitingWriterBlocksReaders(s.log, a.l, t);
    }
  }

  lemma RunHasPriority(run: seq<State>, k: nat, t: nat)
    requires FiniteRun(run, Init, Next) && 0 < k < |run|
    ensures LS.PriorityAt(Logs(run), k, t)
  {
    if LS.Registered(Logs(run), k - 1, t) {
      ReachableInv(run, k - 1);
      assert StepsAt(run, Next, k);
      NextHasPriority(run[k - 1], run[k], t);
    }
  }

  lemma NextHasPriority(s: State, s': State, t: nat)
    requires LC.Control(s.log) && Next(s, s') && t < |s.log.threads| && LC.WaitingToWrite(s.log.threads[t].pc)
    ensures s'.log.counters.readers <= s.log.counters.readers
    ensures forall u: nat :: !LS.Admitted(s.log, s'.log, u)
  {
    var a :| Enabled(s, a) && s' == Apply(s, a);
    StepHasPriority(s, a, t);
  }

  /** Writer priority inside the server: while a worker waits to append its record, no POST is let in. */
  lemma WritersHavePriority(run: seq<State>, i: nat, j: nat, t: nat)
    requires FiniteRun(run, Init, Next) && i <= j < |run|
    requires forall k | i <= k <= j :: LS.Registered(Logs(run), k, t)
    ensures run[j].log.counters.readers <= run[i].log.counters.readers
    ensures forall k, u: nat | i < k <= j :: !LS.AdmittedIn(Logs(run), k, u)
  {
    forall k | i < k <= j ensures LS.PriorityAt(Logs(run), k, t) {
      RunHasPriority(run, k, t);
    }
    LS.PriorityOverStretch(Logs(run), i, j, t);
  }

  /** Worker `w` is answering a POST. */
  ghost predicate AnsweringPost(s: State, w: nat)
  {
    w < |s.workers| && s.workers[w].phase == InLog && Posting(s.workers[w])
  }

  lemma ReaderIsPosting(s: State, w: nat)
    requires Full(s) && w < |s.log.threads| && LC.Reading(s.log.threads[w].pc)
    ensures AnsweringPost(s, w)
  {
    assert WorkerFine(s, w) && TracedAt(s, w);
    assert LC.CallMatches(s.log.threads[w]);
  }

  /** Every answer of the log goes to a worker that is answering a POST, was fixed at one step `j` within
      that call, and decodes to the records of exactly the entries finished by that step, in order. */
  lemma AnswersDecode(run: seq<State>, i: nat) returns (j: nat, x: L.Snapshot, rs: seq<Record>)
    requires FiniteRun(run, Init, Next) && LS.Answers(Logs(run), i)
    ensures LS.Linearized(Logs(run), j, i, x)
    ensures forall k | j <= k < i :: AnsweringPost(run[k], x.reader)
    ensures x.result < |x.dst| && Decode(x.dst[..x.result]) == Some(rs)
    ensures |rs| == |run[j].log.history| && forall e: nat | e < |rs| :: EntryIs(run[j], e, rs[e])
  {
    LogsAreObserved(run);
    ReachableInv(run, i - 1);
    j, x := LS.ObservedCallsAreLinearizable(Logs(run), i);
    forall k | j <= k < i ensures AnsweringPost(run[k], x.reader) {
      ReachableFull(run, k);
      assert LS.ReadingAt(Logs(run), k, x.reader);
      ReaderIsPosting(run[k], x.reader);
    }
    rs := LogDecodes(run, j, |run[j].log.history|);
    assert run[j].log.history[..|run[j].log.history|] == run[j].log.history;
    assert x.dst[..x.result] == LD.Text(run[j].log.history);
  }

  /** Among the requests that worker `u` has read there is a static or dynamic one with number `k`. */
  ghost predicate ServedContent(s: State, u: nat, k: nat)
  {
    u < |s.workers| && exists m :: 0 <= m < |s.workers[u].handled| && IsContent(s.workers[u].handled[m], k)
  }

  predicate IsContent(h: Handled, k: nat)
  {
    h.k == k && IsLogged(h.o)
  }

  lemma {:induction false} LoggedHas(hs: seq<Handled>, m: nat) returns (p: nat)
    requires m < |hs| && IsLogged(hs[m].o)
    ensures p < |LoggedOf(hs)| && LoggedOf(hs)[p] == hs[m]
  {
    if m == |hs| - 1 {
      p := |LoggedOf(hs)| - 1;
    } else {
      p := LoggedHas(hs[..|hs| - 1], m);
    }
  }

  /** The record of a request that has been closed was formatted. */
  lemma ClosedWasFormatted(s: State, u: nat, k: nat) returns (p: nat)
    requires Full(s) && s.pool.closed[k] > 0 && ServedContent(s, u, k)
    ensures p < |s.workers[u].formatted| && s.workers[u].formatted[p].k == k
  {
    var wk := s.workers[u];
    var m :| 0 <= m < |wk.handled| && IsContent(wk.handled[m], k);
    assert TracedAt(s, u);
    if wk.phase.Counted? && m == |wk.handled| - 1 {
      WorkerHolds(s, u, k);
    }
    p := LoggedHas(Branched(wk), m);
  }

  /** The text of record number `p` of worker `u` is in the log, at its place among that worker's. */
  ghost predicate IsWritten(s: State, u: nat, p: nat)
    requires u < |s.workers| && p < |s.workers[u].formatted|
  {
    var rec, mine := s.workers[u].formatted[p].rec, LS.Mine(s.log.history, u);
    p < |mine| && rec.Printable() && mine[p] == Block(rec)
  }

  /** A record that is not in the log yet is that of the request its worker is handling. */
  lemma WrittenOrOnItsWay(s: State, u: nat, p: nat)
    requires Sized(s) && u < |s.workers| && WorkerFine(s, u) && TracedAt(s, u)
    requires p < |s.workers[u].formatted|
    ensures IsWritten(s, u, p)
         || (s.pool.workers[u].Handling? && s.pool.workers[u].k == s.workers[u].formatted[p].k)
  {
    var wk, mine := s.workers[u], LS.Mine(s.log.history, u);
    OneOnItsWay(wk, s.log.threads[u]);
    assert Texts(wk.formatted)[p] == Block(wk.formatted[p].rec);
    assert mine <= Texts(wk.formatted);
  }

  lemma ClosedIsWritten(s: State, u: nat, p: nat)
    requires Full(s) && u < |s.workers| && p < |s.workers[u].formatted|
    requires s.pool.closed[s.workers[u].formatted[p].k] > 0
    ensures IsWritten(s, u, p)
  {
    assert WorkerFine(s, u) && TracedAt(s, u);
    WrittenOrOnItsWay(s, u, p);
    if !IsWritten(s, u, p) {
      WorkerHolds(s, u, s.workers[u].formatted[p].k);
    }
  }

  lemma OneOnItsWay(wk: Worker, th: L.Thread)
    requires Calling(wk, th) && (!wk.phase.InLog? ==> th.todo == [])
    ensures |LS.Appends(th.todo)| + |Unsent(wk.phase)| <= 1
    ensures |LS.Appends(th.todo)| + |Unsent(wk.phase)| == 1 ==>
              Carrying(wk) && (wk.phase.Serving? || wk.phase.Appending? || wk.phase.InLog?)
  {
    if th.todo != [] {
      assert th.todo[1..] == [];
    }
  }

  lemma {:induction false} MineComesFrom(h: seq<L.Entry>, u: nat, p: nat) returns (e: nat)
    requires p < |LS.Mine(h, u)|
    ensures e < |h| && h[e].writer == u && Position(h, e) == p
  {
    var last := |h| - 1;
    if p < |LS.Mine(h[..last], u)| {
      e := MineComesFrom(h[..last], u, p);
      assert h[..last][..e] == h[..e];
    } else {
      e := last;
    }
  }

  /** Entry `e` of the log is the record that its writer `u` formatted for request `k`. */
  ghost predicate EntryFor(s: State, e: nat, u: nat, k: nat)
  {
    && e < |s.log.history| && s.log.history[e].writer == u && u < |s.workers|
    && var fs := s.workers[u].formatted;
       Position(s.log.history, e) < |fs| && fs[Position(s.log.history, e)].k == k
  }

  /** Entry `e`, read as `rec`, is the record of worker `u` for request `k`, and carries the thread, the
      arrival stamp and the interval of that request. */
  ghost predicate Reports(s: State, e: nat, rec: Record, u: nat, k: nat)
  {
    EntryFor(s, e, u, k) && EntryIs(s, e, rec) && rec.stats.id == u + 1 && IsRecordOf(rec, k, s.pool.dispatched)
  }

  lemma ClosedIsReported(s: State, u: nat, k: nat, rs: seq<Record>) returns (e: nat)
    requires Full(s) && s.pool.closed[k] > 0 && ServedContent(s, u, k)
    requires |rs| == |s.log.history| && forall e: nat | e < |rs| :: EntryIs(s, e, rs[e])
    ensures e < |rs| && Reports(s, e, rs[e], u, k)
  {
    var p := ClosedWasFormatted(s, u, k);
    ClosedIsWritten(s, u, p);
    e := MineComesFrom(s.log.history, u, p);
    assert EntryIs(s, e, rs[e]) && WorkerFine(s, u) && TracedAt(s, u);
    EntryReports(s, e, rs[e], u);
  }

  lemma EntryReports(s: State, e: nat, rec: Record, u: nat)
    requires Sized(s) && u < |s.workers| && WorkerFine(s, u) && TracedAt(s, u)
    requires EntryIs(s, e, rec) && s.log.history[e].writer == u
    ensures Reports(s, e, rec, u, s.workers[u].formatted[Position(s.log.history, e)].k)
  {
    assert RecordFits(s.workers[u].formatted, Position(s.log.history, e), u + 1);
  }

  /** Read your writes: a POST is told of every static or dynamic request whose connection was closed
      before its call passed the gate of the log. */
  lemma AnswersTellOfClosed(run: seq<State>, i: nat) returns (j: nat, x: L.Snapshot, rs: seq<Record>)
    requires FiniteRun(run, Init, Next) && LS.Answers(Logs(run), i)
    ensures LS.Linearized(Logs(run), j, i, x)
    ensures x.result < |x.dst| && Decode(x.dst[..x.result]) == Some(rs)
    ensures forall u: nat, k: nat | ServedContent(run[j], u, k) && run[j].pool.closed[k] > 0 ::
              exists e: nat :: e < |rs| && Reports(run[j], e, rs[e], u, k)
  {
    j, x, rs := AnswersDecode(run, i);
    ReachableFull(run, j);
    forall u: nat, k: nat | ServedContent(run[j], u, k) && run[j].pool.closed[k] > 0
      ensures exists e: nat :: e < |rs| && Reports(run[j], e, rs[e], u, k)
    {
      var e := ClosedIsReported(run[j], u, k, rs);
    }
  }

  // ---------------------------------------------------------------- the order of records

  lemma {:induction false} PositionsIncrease(h: seq<L.Entry>, i: nat, j: nat)
    requires i < j < |h| && h[i].writer == h[j].writer
    ensures Position(h, i) < Position(h, j)
  {
    assert h[..j][i] == h[i] && h[..j][..i] == h[..i];
    MineAt(h[..j], i);
  }

  /** What an entry says, seen from the records of its writer. */
  lemma EntryFits(s: State, e: nat, rec: Record)
    requires Inv(s) && EntryIs(s, e, rec)
    ensures var w, p := s.log.history[e].writer, Position(s.log.history, e);
            && rec == s.workers[w].formatted[p].rec
            && RecordFits(s.workers[w].formatted, p, w + 1)
  {
    assert WorkerFine(s, s.log.history[e].writer);
  }

  lemma LaterCountsMore(s: State, w: nat, p: nat, q: nat)
    requires Sized(s) && w < |s.workers| && WorkerFine(s, w) && p < q < |s.workers[w].formatted|
    ensures s.workers[w].formatted[p].rec.stats.totalReq < s.workers[w].formatted[q].rec.stats.totalReq
  {
  }

  /** Records of one thread appear in handling order with strictly increasing counts; in each, the
      kinds do not exceed the count; and the thread's k-th record counts k static and dynamic requests,
      less the empty files recorded before it. */
  lemma ThreadRecordsInOrder(run: seq<State>, i: nat, a: nat, b: nat, ra: Record, rb: Record)
    requires FiniteRun(run, Init, Next) && i < |run|
    requires EntryIs(run[i], a, ra) && EntryIs(run[i], b, rb)
    ensures var h := run[i].log.history;
            var fs := run[i].workers[h[a].writer].formatted;
            && ra.stats.id == h[a].writer + 1
            && ra.stats.statReq + ra.stats.dynmReq + ra.stats.postReq <= ra.stats.totalReq
            && ra.stats.statReq + ra.stats.dynmReq == Position(h, a) + 1 - EmptyCount(fs[..Position(h, a)])
    ensures a < b && ra.stats.id == rb.stats.id ==> ra.stats.totalReq < rb.stats.totalReq
  {
    ReachableInv(run, i);
    EntriesInOrder(run[i], a, b, ra, rb);
  }

  lemma EntriesInOrder(s: State, a: nat, b: nat, ra: Record, rb: Record)
    requires Inv(s) && EntryIs(s, a, ra) && EntryIs(s, b, rb)
    ensures var h := s.log.history;
            RecordFits(s.workers[h[a].writer].formatted, Position(h, a), h[a].writer + 1)
    ensures a < b && ra.stats.id == rb.stats.id ==> ra.stats.totalReq < rb.stats.totalReq
  {
    var h := s.log.history;
    EntryFits(s, a, ra);
    EntryFits(s, b, rb);
    if a < b && ra.stats.id == rb.stats.id {
      PositionsIncrease(h, a, b);
      assert WorkerFine(s, h[a].writer);
      LaterCountsMore(s, h[a].writer, Position(h, a), Position(h, b));
    }
  }
}
