/** Each request and its record: a static or dynamic request that has been closed has exactly one entry in
    the log, any other request none. */
module ServerRecords {
  import opened Sums
  import opened Runs
  import opened Memory
  import opened RequestLine
  import opened Requests
  import opened ServerMachine
  import opened ServerInvariant
  import opened ServerRequests
  import opened ServerTheorems

  // ---------------------------------------------------------------- counting in one series

  lemma {:induction false} TimesAtLeast(hs: seq<Handled>, m: nat)
    requires m < |hs|
    ensures Times(hs, hs[m].k) >= 1
  {
    if m < |hs| - 1 {
      TimesAtLeast(hs[..|hs| - 1], m);
    }
  }

  lemma {:induction false} TimesTwice(hs: seq<Handled>, p: nat, q: nat)
    requires p < q < |hs| && hs[p].k == hs[q].k
    ensures Times(hs, hs[p].k) >= 2
  {
    if q < |hs| - 1 {
      TimesTwice(hs[..|hs| - 1], p, q);
    } else {
      TimesAtLeast(hs[..|hs| - 1], p);
    }
  }

  /** What is not logged is missing among the logged. */
  lemma {:induction false} TimesLogged(hs: seq<Handled>, k: nat)
    ensures Times(LoggedOf(hs), k) <= Times(hs, k)
  {
    if hs != [] {
      TimesLogged(hs[..|hs| - 1], k);
      if IsLogged(Last(hs).o) {
        TimesGrows(LoggedOf(hs[..|hs| - 1]), Last(hs), k);
      } else {
        assert LoggedOf(hs) == LoggedOf(hs[..|hs| - 1]);
      }
    }
  }

  lemma {:induction false} TimesUnlogged(hs: seq<Handled>, m: nat)
    requires m < |hs| && !IsLogged(hs[m].o)
    ensures Times(LoggedOf(hs), hs[m].k) < Times(hs, hs[m].k)
  {
    var init, k := hs[..|hs| - 1], hs[m].k;
    if m < |init| {
      TimesUnlogged(init, m);
      if IsLogged(Last(hs).o) {
        TimesGrows(LoggedOf(init), Last(hs), k);
      } else {
        assert LoggedOf(hs) == LoggedOf(init);
      }
    } else {
      TimesLogged(init, k);
      assert LoggedOf(hs) == LoggedOf(init);
    }
  }

  lemma BranchedTimes(wk: Worker, k: nat)
    ensures Times(Branched(wk), k) <= Times(wk.handled, k)
  {
  }

  // ---------------------------------------------------------------- one worker, one request

  /** Worker `u` has read request `k`, which turned out to be `o`. */
  ghost predicate HandledAs(s: State, u: nat, k: nat, o: Outcome)
  {
    u < |s.workers| && Handled(k, o) in s.workers[u].handled
  }

  /** Nobody but one worker has had request `k`, and that one once. */
  lemma HadOnce(s: State, u: nat, v: nat, k: nat)
    requires HandledOnce(s.workers, |s.pool.dispatched|) && u < |s.workers| && v < |s.workers|
    ensures Has(k)(s.workers[u]) <= 1
    ensures Has(k)(s.workers[u]) > 0 && Has(k)(s.workers[v]) > 0 ==> u == v
  {
    assert Sum(s.workers, Has(k)) <= 1;
    SumAtLeast(s.workers, Has(k), u);
    if u != v {
      SumAtLeastBoth(s.workers, Has(k), u, v);
    }
  }

  /** Record number `p` of a worker belongs to a static or dynamic request that it has read. */
  lemma FormattedTimes(wk: Worker, p: nat)
    requires Matching(wk) && p < |wk.formatted|
    ensures var k := wk.formatted[p].k;
            0 < Times(LoggedOf(Branched(wk)), k) <= Times(Branched(wk), k) <= Times(wk.handled, k)
  {
    TimesAtLeast(LoggedOf(Branched(wk)), p);
    TimesLogged(Branched(wk), wk.formatted[p].k);
    BranchedTimes(wk, wk.formatted[p].k);
  }

  lemma FormattedTwice(wk: Worker, p: nat, q: nat)
    requires Matching(wk) && p < q < |wk.formatted| && wk.formatted[p].k == wk.formatted[q].k
    ensures Times(wk.handled, wk.formatted[p].k) >= 2
  {
    FormattedTimes(wk, p);
    TimesTwice(LoggedOf(Branched(wk)), p, q);
  }

  /** Whoever formatted a record for `k` read it once, and as a static or dynamic request. */
  lemma FormattedIsLogged(wk: Worker, p: nat, o: Outcome)
    requires Matching(wk) && p < |wk.formatted| && Times(wk.handled, wk.formatted[p].k) <= 1
    requires Handled(wk.formatted[p].k, o) in wk.handled
    ensures IsLogged(o)
  {
    var k := wk.formatted[p].k;
    FormattedTimes(wk, p);
    var m :| 0 <= m < |wk.handled| && wk.handled[m] == Handled(k, o);
    if !IsLogged(o) {
      if m < |Branched(wk)| {
        assert Branched(wk)[m] == Handled(k, o);
        TimesUnlogged(Branched(wk), m);
      }
    }
  }

  // ---------------------------------------------------------------- entries and requests

  lemma EntryIsHad(s: State, e: nat, u: nat, k: nat)
    requires Full(s) && EntryFor(s, e, u, k)
    ensures Times(s.workers[u].handled, k) == 1 && Has(k)(s.workers[u]) > 0
  {
    assert TracedAt(s, u);
    FormattedTimes(s.workers[u], Position(s.log.history, e));
    HadOnce(s, u, u, k);
  }

  /** No request has two entries. */
  lemma EntryIsUnique(s: State, e: nat, u: nat, e': nat, u': nat, k: nat)
    requires Full(s) && EntryFor(s, e, u, k) && EntryFor(s, e', u', k)
    ensures e == e'
  {
    EntryIsHad(s, e, u, k);
    EntryIsHad(s, e', u', k);
    HadOnce(s, u, u', k);
    assert TracedAt(s, u);
    var h := s.log.history;
    if e < e' {
      PositionsIncrease(h, e, e');
      FormattedTwice(s.workers[u], Position(h, e), Position(h, e'));
    } else if e' < e {
      PositionsIncrease(h, e', e);
      FormattedTwice(s.workers[u], Position(h, e'), Position(h, e));
    }
  }

  /** A request with an entry was static or dynamic. */
  lemma EntryIsLogged(s: State, e: nat, u: nat, v: nat, k: nat, o: Outcome)
    requires Full(s) && EntryFor(s, e, u, k) && HandledAs(s, v, k, o)
    ensures IsLogged(o)
  {
    EntryIsHad(s, e, u, k);
    var hs := s.workers[v].handled;
    var m :| 0 <= m < |hs| && hs[m] == Handled(k, o);
    TimesAtLeast(hs, m);
    HadOnce(s, u, v, k);
    assert TracedAt(s, u);
    FormattedIsLogged(s.workers[u], Position(s.log.history, e), o);
  }

  lemma ClosedHasEntry(s: State, v: nat, k: nat, o: Outcome) returns (e: nat)
    requires Full(s) && s.pool.closed[k] > 0 && HandledAs(s, v, k, o) && IsLogged(o)
    ensures EntryFor(s, e, v, k)
  {
    var hs := s.workers[v].handled;
    var m :| 0 <= m < |hs| && hs[m] == Handled(k, o);
    assert IsContent(hs[m], k);
    var p := ClosedWasFormatted(s, v, k);
    ClosedIsWritten(s, v, p);
    e := MineComesFrom(s.log.history, v, p);
  }

  /** Request `k` has an entry in the log iff it turned out static or dynamic, and never two. */
  ghost predicate RecordedRight(s: State, k: nat)
  {
    && (forall e: nat, u: nat, e': nat, u': nat | EntryFor(s, e, u, k) && EntryFor(s, e', u', k) :: e == e')
    && (forall v: nat, o | HandledAs(s, v, k, o) :: IsLogged(o) <==> exists e: nat, u: nat :: EntryFor(s, e, u, k))
  }

  lemma ClosedIsRecordedRight(s: State, k: nat)
    requires Full(s) && s.pool.closed[k] > 0
    ensures RecordedRight(s, k)
  {
    forall e: nat, u: nat, e': nat, u': nat | EntryFor(s, e, u, k) && EntryFor(s, e', u', k) ensures e == e' {
      EntryIsUnique(s, e, u, e', u', k);
    }
    forall v: nat, o | HandledAs(s, v, k, o)
      ensures IsLogged(o) <==> exists e: nat, u: nat :: EntryFor(s, e, u, k)
    {
      if IsLogged(o) {
        var e := ClosedHasEntry(s, v, k, o);
      }
      if e: nat, u: nat :| EntryFor(s, e, u, k) {
        EntryIsLogged(s, e, u, v, k, o);
      }
    }
  }

  /** In every reachable state no request has two entries, none has one unless it turned out static or
      dynamic, and every closed one that did has its entry. */
  lemma RecordsMatchRequests(run: seq<State>, i: nat, k: nat)
    requires FiniteRun(run, Init, Next) && i < |run|
    ensures run[i].pool.closed[k] > 0 ==> RecordedRight(run[i], k)
    ensures forall e: nat, u: nat, e': nat, u': nat |
              EntryFor(run[i], e, u, k) && EntryFor(run[i], e', u', k) :: e == e'
    ensures forall e: nat, u: nat, v: nat, o | EntryFor(run[i], e, u, k) && HandledAs(run[i], v, k, o) :: IsLogged(o)
  {
    ReachableFull(run, i);
    var s := run[i];
    forall e: nat, u: nat, e': nat, u': nat | EntryFor(s, e, u, k) && EntryFor(s, e', u', k) ensures e == e' {
      EntryIsUnique(s, e, u, e', u', k);
    }
    forall e: nat, u: nat, v: nat, o | EntryFor(s, e, u, k) && HandledAs(s, v, k, o) ensures IsLogged(o) {
      EntryIsLogged(s, e, u, v, k, o);
    }
    if s.pool.closed[k] > 0 {
      ClosedIsRecordedRight(s, k);
    }
  }

  // ---------------------------------------------------------------- what a request turns out to be

  lemma HandledIsAllowed(s: State, v: nat, k: nat, o: Outcome)
    requires Full(s) && HandledAs(s, v, k, o)
    ensures s.inputs(k).Allows(o)
  {
    assert TracedAt(s, v);
    var hs := s.workers[v].handled;
    var m :| 0 <= m < |hs| && hs[m] == Handled(k, o);
  }

  /** In every reachable state a request that was read turned out as its method says: without any byte it was
      dropped; if its line starts with the word `word`, that word decides. */
  lemma MethodIsObeyed(run: seq<State>, i: nat, v: nat, k: nat, o: Outcome, word: string)
    requires FiniteRun(run, Init, Next) && i < |run| && HandledAs(run[i], v, k, o)
    requires IsWord(word) && word != "" && |word| < MAXLINE - 1
    ensures run[i].inputs(k).stream == [] <==> o.NoLine?
    ensures word + " " <= run[i].inputs(k).stream ==>
              if SpellsGet(word) then o.NotFound? || o.Forbidden? || o.Static? || o.Dynamic?
              else if SpellsPost(word) then o.Post?
              else o.Unsupported?
  {
    ReachableFull(run, i);
    HandledIsAllowed(run[i], v, k, o);
    if word + " " <= run[i].inputs(k).stream {
      PlainRequestLine(run[i].inputs(k), word, o);
    }
  }
}
