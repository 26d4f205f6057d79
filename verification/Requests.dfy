/** How one request changes the counters of its thread and the shared log (`requestHandle`,
    `requestServeStatic`, `requestServePost`, request.c). */
module Requests {
  import opened Memory
  import opened Clock
  import opened Records
  import opened LogObject
  import opened LockCounters
  import opened Format
  import opened RequestLine

  // ---------------------------------------------------------------- the counters, step by step

  function CountRequest(st: Stats): Stats
  {
    st.(totalReq := st.totalReq + 1)
  }

  function CountKind(st: Stats, o: Outcome): Stats
  {
    match o
    case Static(_) => st.(statReq := st.statReq + 1)
    case Dynamic => st.(dynmReq := st.dynmReq + 1)
    case Post => st.(postReq := st.postReq + 1)
    case _ => st
  }

  function UndoStatic(st: Stats): Stats
    requires st.statReq > 0
  {
    st.(statReq := st.statReq - 1)
  }

  /** The counters as a request's log record sees them. */
  function StatsLogged(st: Stats, o: Outcome): Stats
  {
    CountKind(CountRequest(st), o)
  }

  /** The counters after the whole request. */
  function StatsAfter(st: Stats, o: Outcome): Stats
  {
    if o.NoLine? then st
    else if IsEmptyFile(o) then UndoStatic(StatsLogged(st, o))
    else StatsLogged(st, o)
  }

  /** Static content, dynamic content, log text, an error, or nothing: what a request turns out to be. */
  datatype Kind = StaticKind | DynamicKind | PostKind | ErrorKind | DroppedKind

  function KindOf(o: Outcome): Kind
  {
    if o.NoLine? then DroppedKind
    else if o.Post? then PostKind
    else if o.Dynamic? then DynamicKind
    else if o.Static? && o.size > 0 then StaticKind
    else ErrorKind
  }

  /** Request number `k`, and what it turned out to be. */
  datatype Handled = Handled(k: nat, o: Outcome)

  function KindCount(hs: seq<Handled>, kind: Kind): (n: nat)
    ensures n <= |hs|
  {
    if hs == [] then 0
    else KindCount(hs[..|hs| - 1], kind) + if KindOf(hs[|hs| - 1].o) == kind then 1 else 0
  }

  /** The counters after a series of requests. */
  function StatsAfterAll(st: Stats, hs: seq<Handled>): Stats
  {
    if hs == [] then st else StatsAfter(StatsAfterAll(st, hs[..|hs| - 1]), hs[|hs| - 1].o)
  }

  /** After any series of requests each counter has grown by the number of requests of its kind, and the
      total by those that had a request line; every one of them is of exactly one kind. */
  lemma {:induction false} SeriesAddsUp(st: Stats, hs: seq<Handled>)
    ensures var st' := StatsAfterAll(st, hs);
            && st'.id == st.id
            && st'.totalReq == st.totalReq + |hs| - KindCount(hs, DroppedKind)
            && st'.statReq == st.statReq + KindCount(hs, StaticKind)
            && st'.dynmReq == st.dynmReq + KindCount(hs, DynamicKind)
            && st'.postReq == st.postReq + KindCount(hs, PostKind)
    ensures |hs| == KindCount(hs, StaticKind) + KindCount(hs, DynamicKind) + KindCount(hs, PostKind)
                    + KindCount(hs, ErrorKind) + KindCount(hs, DroppedKind)
  {
    if hs != [] {
      SeriesAddsUp(st, hs[..|hs| - 1]);
    }
  }

  /** The counters that the records of a series show, one for each static or dynamic request. */
  function SeriesLogged(st: Stats, hs: seq<Handled>): (r: seq<Stats>)
    ensures |r| <= |hs|
  {
    if hs == [] then []
    else
      var init, last := hs[..|hs| - 1], hs[|hs| - 1];
      SeriesLogged(st, init) + if IsLogged(last.o) then [StatsLogged(StatsAfterAll(st, init), last.o)] else []
  }

  /** The requests of a series that were not for empty files. */
  function WithoutEmpty(hs: seq<Handled>): (r: seq<Handled>)
    ensures |r| <= |hs|
  {
    if hs == [] then []
    else WithoutEmpty(hs[..|hs| - 1]) + if IsEmptyFile(hs[|hs| - 1].o) then [] else [hs[|hs| - 1]]
  }

  /** Empty files are counted in the total and leave no other trace in the counters, wherever they occur
      in a series; but a request is recorded with other counters than it leaves behind exactly if it is for
      an empty file (its record counts one static request more). */
  lemma {:induction false} EmptyFilesAreUndone(st: Stats, hs: seq<Handled>, o: Outcome)
    ensures StatsAfterAll(st, hs)
         == StatsAfterAll(st, WithoutEmpty(hs)).(totalReq := StatsAfterAll(st, hs).totalReq)
    ensures StatsAfterAll(st, hs).totalReq == StatsAfterAll(st, WithoutEmpty(hs)).totalReq + |hs| - |WithoutEmpty(hs)|
    ensures !o.NoLine? ==> (StatsLogged(st, o) == StatsAfter(st, o) <==> !IsEmptyFile(o))
    ensures StatsLogged(st, o).statReq == StatsAfter(st, o).statReq + if IsEmptyFile(o) then 1 else 0
  {
    if hs != [] {
      var init, last := hs[..|hs| - 1], hs[|hs| - 1];
      EmptyFilesAreUndone(st, init, o);
      if !IsEmptyFile(last.o) {
        assert (WithoutEmpty(init) + [last])[..|WithoutEmpty(init)|] == WithoutEmpty(init);
      } else {
        assert WithoutEmpty(hs) == WithoutEmpty(init);
      }
    }
  }

  // ---------------------------------------------------------------- one request in memory

  /** What is sent back: nothing, an error page, content, or the log text with its length. Every
      answer carries a statistics block. */
  datatype Reply = Silent | Error(block: string) | Content(block: string) | LogText(block: string, text: string)

  /** struct Threads_stats, as requestHandle updates it. */
  class ThreadStats {
    var id: nat
    var statReq: nat
    var dynmReq: nat
    var postReq: nat
    var totalReq: nat

    function View(): Stats
      reads this
    {
      Stats(id, statReq, dynmReq, postReq, totalReq)
    }

    constructor (id: nat)
      ensures View() == Stats(id, 0, 0, 0, 0)
    {
      this.id := id;
      this.statReq, this.dynmReq, this.postReq, this.totalReq := 0, 0, 0, 0;
    }

    /** append_stats into a fresh buffer of MAXLINE characters. */
    method StatsBlock(arrival: Timeval, dispatch: Timeval) returns (block: string)
      requires Fit(arrival, dispatch, View())
      ensures block == Block(Record(arrival, dispatch, View()))
    {
      var buf := new char[MAXLINE];
      buf[0] := '\0';
      CStringIs(buf[..], 0);
      BlockFits(Record(arrival, dispatch, View()));
      var n := AppendStats(buf, Record(arrival, dispatch, View()));
      block := buf[..n];
    }

    /** requestServeStatic, as far as the counters go. */
    method ServeStatic(size: nat, arrival: Timeval, dispatch: Timeval) returns (reply: Reply)
      requires statReq > 0
      requires Fit(arrival, dispatch, if size == 0 then UndoStatic(View()) else View())
      modifies this`statReq
      ensures View() == if size == 0 then UndoStatic(old(View())) else old(View())
      ensures reply == if size == 0 then Error(Block(Record(arrival, dispatch, View())))
                       else Content(Block(Record(arrival, dispatch, View())))
    {
      if size == 0 {
        statReq := statReq - 1;
        var block := StatsBlock(arrival, dispatch);
        return Error(block);
      }
      var block := StatsBlock(arrival, dispatch);
      return Content(block);
    }

    /** requestHandle by a thread that finds the log free. Each counter rises by its own requests, the log
        grows by one block exactly for static and dynamic requests (also for an empty file), that block shows
        the counters with this request counted, and a POST is answered with the whole log as it is. */
    method Handle(o: Outcome, arrival: Timeval, dispatch: Timeval, log: ServerLog) returns (reply: Reply)
      requires log.Valid() && log.Lock() == CREATED
      requires Fit(arrival, dispatch, StatsLogged(View(), o)) && Fit(arrival, dispatch, StatsAfter(View(), o))
      modifies this, log, log.buffer
      ensures log.Valid() && log.Lock() == CREATED && id == old(id)
      ensures View() == StatsAfter(old(View()), o)
      ensures totalReq == old(totalReq) + if o.NoLine? then 0 else 1
      ensures statReq == old(statReq) + if o.Static? && o.size > 0 then 1 else 0
      ensures dynmReq == old(dynmReq) + if o.Dynamic? then 1 else 0
      ensures postReq == old(postReq) + if o.Post? then 1 else 0
      ensures !o.Static? && !o.Dynamic? ==> log.Contents() == old(log.Contents())
      ensures o.Static? || o.Dynamic? ==>
                var rec := Logged(arrival, dispatch, old(View()), o);
                && log.Contents() == old(log.Contents()) + Block(rec)
                && Decode(Block(rec)) == Some([rec])
                && rec.arrival == arrival && rec.dispatch == dispatch && rec.stats.id == id
                && rec.stats.totalReq == old(totalReq) + 1
                && rec.stats.statReq == old(statReq) + (if o.Static? then 1 else 0)
                && rec.stats.dynmReq == old(dynmReq) + (if o.Dynamic? then 1 else 0)
                && rec.stats.postReq == old(postReq)
      ensures o.NoLine? <==> reply == Silent
      ensures o.Post? <==> reply.LogText?
      ensures o.NotFound? || o.Forbidden? || o.Unsupported? || (o.Static? && o.size == 0) <==> reply.Error?
      ensures !o.NoLine? ==> reply.block == Block(Record(arrival, dispatch, View()))
      ensures o.Post? ==> reply.LogText? && reply.text == old(log.Contents())
    {
      if o.NoLine? {
        return Silent;
      }
      totalReq := totalReq + 1;
      if IsLogged(o) {
        reply := ServeContent(o, arrival, dispatch, log);
        LoggedDecodes(arrival, dispatch, old(View()), o);
      } else if o.Post? {
        postReq := postReq + 1;
        var body, n := log.GetLog();
        var block := StatsBlock(arrival, dispatch);
        reply := LogText(block, body[..n]);
        assert body[..n] == body[..][..n];
      } else {
        var block := StatsBlock(arrival, dispatch);
        reply := Error(block);
      }
    }

    /** The branches of requestHandle that serve content. The block for the log is formatted before the
        content is served, and appended after. */
    method ServeContent(o: Outcome, arrival: Timeval, dispatch: Timeval, log: ServerLog) returns (reply: Reply)
      requires log.Valid() && log.Lock() == CREATED && (o.Static? || o.Dynamic?)
      requires Fit(arrival, dispatch, CountKind(View(), o))
      requires o == Static(0) ==> Fit(arrival, dispatch, View())
      modifies this`statReq, this`dynmReq, log, log.buffer
      ensures log.Valid() && log.Lock() == CREATED
      ensures statReq == old(statReq) + if o.Static? && o.size > 0 then 1 else 0
      ensures dynmReq == old(dynmReq) + if o.Dynamic? then 1 else 0
      ensures log.Contents() == old(log.Contents()) + Block(Record(arrival, dispatch, CountKind(old(View()), o)))
      ensures reply == if o == Static(0) then Error(Block(Record(arrival, dispatch, View())))
                       else Content(Block(Record(arrival, dispatch, View())))
    {
      if o.Static? {
        statReq := statReq + 1;
      } else {
        dynmReq := dynmReq + 1;
      }
      var stats := StatsBlock(arrival, dispatch);
      if o.Static? {
        reply := ServeStatic(o.size, arrival, dispatch);
      } else {
        var block := StatsBlock(arrival, dispatch);
        reply := Content(block);
      }
      log.AddToLog(stats);
    }
  }

  /** The record that a static or dynamic request leaves in the log. */
  function Logged(arrival: Timeval, dispatch: Timeval, st: Stats, o: Outcome): Record
  {
    Record(arrival, dispatch, StatsLogged(st, o))
  }

  lemma LoggedDecodes(arrival: Timeval, dispatch: Timeval, st: Stats, o: Outcome)
    requires Fit(arrival, dispatch, StatsLogged(st, o))
    ensures Decode(Block(Logged(arrival, dispatch, st, o))) == Some([Logged(arrival, dispatch, st, o)])
  {
    var rec := Logged(arrival, dispatch, st, o);
    DecodeUndoesBlocks([rec]);
    assert [rec][1..] == [];
    assert Block(rec) + "" == Block(rec);
  }

  /** What the C types grant: times are not negative and numbers have a bounded width. */
  predicate Fit(arrival: Timeval, dispatch: Timeval, st: Stats)
  {
    var r := Record(arrival, dispatch, st);
    r.Printable() && Narrow(r)
  }
}
