/** Each POST and its answer: a POST that has been closed got exactly one answer from the log, given while its
    connection was being handled; nobody else got any. */
module ServerPosts {
  import opened Runs
  import PI = PoolInvariant
  import P = PoolMachine
  import L = LogMachine
  import LC = LogControl
  import LS = LogSafety
  import opened RequestLine
  import opened Requests
  import opened ServerMachine
  import opened ServerInvariant
  import opened ServerRequests
  import opened ServerTheorems
  import opened ServerRecords
  import opened ServerAnswers

  // ---------------------------------------------------------------- which answer is whose

  /** Which of its reader's answers number `i` is: as many as that reader got before it. */
  function AnswerPosition(xs: seq<L.Snapshot>, i: nat): nat
    requires i < |xs|
  {
    LS.Taken(xs[..i], xs[i].reader)
  }

  /** Answer `i` of the log went to worker `u` for request `k`: the POST at the same place among that worker's
      POSTs as the answer among its answers. */
  ghost predicate AnswerFor(s: State, i: nat, u: nat, k: nat)
  {
    && i < |s.log.snapshots| && s.log.snapshots[i].reader == u && u < |s.workers|
    && var posts := PostsOf(Branched(s.workers[u]));
       AnswerPosition(s.log.snapshots, i) < |posts| && posts[AnswerPosition(s.log.snapshots, i)].k == k
  }

  lemma {:induction false} AnswersIncrease(xs: seq<L.Snapshot>, i: nat, j: nat)
    requires i < j < |xs| && xs[i].reader == xs[j].reader
    ensures AnswerPosition(xs, i) < AnswerPosition(xs, j)
    decreases j
  {
    TakenGrowsPast(xs[..j], i);
    assert xs[..j][..i] == xs[..i];
  }

  lemma {:induction false} TakenGrowsPast(xs: seq<L.Snapshot>, i: nat)
    requires i < |xs|
    ensures AnswerPosition(xs, i) < LS.Taken(xs, xs[i].reader)
  {
    if i < |xs| - 1 {
      TakenGrowsPast(xs[..|xs| - 1], i);
      assert xs[..|xs| - 1][..i] == xs[..i];
    }
  }

  /** Every place among a reader's answers is taken. */
  lemma {:induction false} AnswerAt(xs: seq<L.Snapshot>, u: nat, p: nat) returns (i: nat)
    requires p < LS.Taken(xs, u)
    ensures i < |xs| && xs[i].reader == u && AnswerPosition(xs, i) == p
  {
    var last := |xs| - 1;
    if p < LS.Taken(xs[..last], u) {
      i := AnswerAt(xs[..last], u, p);
      assert xs[..last][..i] == xs[..i];
    } else {
      i := last;
    }
  }

  // ---------------------------------------------------------------- counting in one series

  lemma {:induction false} PostsAreHandled(hs: seq<Handled>, p: nat) returns (m: nat)
    requires p < |PostsOf(hs)|
    ensures m < |hs| && hs[m] == PostsOf(hs)[p] && hs[m].o.Post?
  {
    if p < |PostsOf(hs[..|hs| - 1])| {
      m := PostsAreHandled(hs[..|hs| - 1], p);
    } else {
      m := |hs| - 1;
    }
  }

  lemma {:induction false} PostsHave(hs: seq<Handled>, m: nat) returns (p: nat)
    requires m < |hs| && hs[m].o.Post?
    ensures p < |PostsOf(hs)| && PostsOf(hs)[p] == hs[m]
  {
    if m == |hs| - 1 {
      p := |PostsOf(hs)| - 1;
    } else {
      p := PostsHave(hs[..|hs| - 1], m);
    }
  }

  lemma {:induction false} TimesPosts(hs: seq<Handled>, k: nat)
    ensures Times(PostsOf(hs), k) <= Times(hs, k)
  {
    if hs != [] {
      TimesPosts(hs[..|hs| - 1], k);
      if Last(hs).o.Post? {
        TimesGrows(PostsOf(hs[..|hs| - 1]), Last(hs), k);
      } else {
        assert PostsOf(hs) == PostsOf(hs[..|hs| - 1]);
      }
    }
  }

  /** Two places in a series with the same request number are the same if that number occurs but once. */
  lemma OnceMeansSame(hs: seq<Handled>, p: nat, q: nat)
    requires p < |hs| && q < |hs| && hs[p].k == hs[q].k && Times(hs, hs[p].k) <= 1
    ensures p == q
  {
    if p < q {
      TimesTwice(hs, p, q);
    } else if q < p {
      TimesTwice(hs, q, p);
    }
  }

  // ---------------------------------------------------------------- answers and requests

  lemma AnswerIsHad(s: State, i: nat, u: nat, k: nat)
    requires Full(s) && AnswerFor(s, i, u, k)
    ensures Times(s.workers[u].handled, k) == 1 && Has(k)(s.workers[u]) > 0 && HandledAs(s, u, k, Post)
  {
    var hs := s.workers[u].handled;
    var m := PostsAreHandled(Branched(s.workers[u]), AnswerPosition(s.log.snapshots, i));
    assert hs[m] == Handled(k, Post);
    TimesAtLeast(hs, m);
    HadOnce(s, u, u, k);
  }

  /** No request has two answers. */
  lemma AnswerIsUnique(s: State, i: nat, u: nat, i': nat, u': nat, k: nat)
    requires Full(s) && AnswerFor(s, i, u, k) && AnswerFor(s, i', u', k)
    ensures i == i'
  {
    AnswerIsHad(s, i, u, k);
    AnswerIsHad(s, i', u', k);
    HadOnce(s, u, u', k);
    var xs, posts := s.log.snapshots, PostsOf(Branched(s.workers[u]));
    TimesPosts(Branched(s.workers[u]), k);
    BranchedTimes(s.workers[u], k);
    OnceMeansSame(posts, AnswerPosition(xs, i), AnswerPosition(xs, i'));
    if i < i' {
      AnswersIncrease(xs, i, i');
    } else if i' < i {
      AnswersIncrease(xs, i', i);
    }
  }

  /** A worker has had each request once, so it turned out one way only. */
  lemma OneOutcome(s: State, u: nat, v: nat, k: nat, o: Outcome, o': Outcome)
    requires Full(s) && HandledAs(s, u, k, o) && HandledAs(s, v, k, o')
    ensures u == v && o == o'
  {
    var hs, hs' := s.workers[u].handled, s.workers[v].handled;
    var m :| 0 <= m < |hs| && hs[m] == Handled(k, o);
    var m' :| 0 <= m' < |hs'| && hs'[m'] == Handled(k, o');
    TimesAtLeast(hs, m);
    TimesAtLeast(hs', m');
    HadOnce(s, u, v, k);
    OnceMeansSame(hs, m, m');
  }

  lemma WaitsForAnswer(wk: Worker, th: L.Thread)
    requires Calling(wk, th) && (!wk.phase.InLog? ==> th.todo == [])
    requires LS.Gets(th.todo) + (if wk.phase.Fetching? then 1 else 0) > 0
    ensures LS.Gets(th.todo) + (if wk.phase.Fetching? then 1 else 0) == 1
    ensures Posting(wk) && (wk.phase.Fetching? || wk.phase.InLog?)
  {
    if th.todo != [] {
      assert th.todo[1..] == [];
    }
  }

  /** A POST that has not been answered is the one its worker is handling. */
  lemma AnsweredOrWaiting(s: State, u: nat, p: nat)
    requires Sized(s) && u < |s.workers| && WorkerFine(s, u) && TracedAt(s, u) && ToldAt(s, u)
    requires p < |PostsOf(Branched(s.workers[u]))|
    ensures p < LS.Taken(s.log.snapshots, u) || Holds(s, u, PostsOf(Branched(s.workers[u]))[p].k)
  {
    var wk := s.workers[u];
    if p >= LS.Taken(s.log.snapshots, u) {
      WaitsForAnswer(wk, s.log.threads[u]);
      assert Branched(wk) == wk.handled && Last(wk.handled).o.Post?;
      assert PostsOf(wk.handled)[p] == Last(wk.handled);
    }
  }

  /** A POST whose connection has been closed is among those whose branch was taken. */
  lemma ClosedIsBranched(s: State, u: nat, k: nat) returns (p: nat)
    requires Sized(s) && PI.Inv(s.pool) && s.pool.closed[k] > 0 && HandledAs(s, u, k, Post) && TracedAt(s, u)
    ensures p < |PostsOf(Branched(s.workers[u]))| && PostsOf(Branched(s.workers[u]))[p] == Handled(k, Post)
  {
    var wk := s.workers[u];
    var m :| 0 <= m < |wk.handled| && wk.handled[m] == Handled(k, Post);
    if wk.phase.Counted? && m == |wk.handled| - 1 {
      WorkerHolds(s, u, k);
    }
    p := PostsHave(Branched(wk), m);
  }

  lemma ClosedHasAnswer(s: State, u: nat, k: nat) returns (i: nat)
    requires Complete(s) && s.pool.closed[k] > 0 && HandledAs(s, u, k, Post)
    ensures AnswerFor(s, i, u, k)
  {
    assert WorkerFine(s, u) && TracedAt(s, u) && ToldAt(s, u);
    var p := ClosedIsBranched(s, u, k);
    AnsweredOrWaiting(s, u, p);
    if Holds(s, u, k) {
      WorkerHolds(s, u, k);
    }
    i := AnswerAt(s.log.snapshots, u, p);
  }

  /** Request `k` has an answer iff it turned out a POST, and never two. */
  ghost predicate AnsweredRight(s: State, k: nat)
  {
    && (forall i: nat, u: nat, i': nat, u': nat | AnswerFor(s, i, u, k) && AnswerFor(s, i', u', k) :: i == i')
    && (forall v: nat, o | HandledAs(s, v, k, o) :: o.Post? <==> exists i: nat, u: nat :: AnswerFor(s, i, u, k))
  }

  lemma ClosedIsAnsweredRight(s: State, k: nat)
    requires Complete(s) && s.pool.closed[k] > 0
    ensures AnsweredRight(s, k)
  {
    forall i: nat, u: nat, i': nat, u': nat | AnswerFor(s, i, u, k) && AnswerFor(s, i', u', k) ensures i == i' {
      AnswerIsUnique(s, i, u, i', u', k);
    }
    forall v: nat, o | HandledAs(s, v, k, o)
      ensures o.Post? <==> exists i: nat, u: nat :: AnswerFor(s, i, u, k)
    {
      if o.Post? {
        var i := ClosedHasAnswer(s, v, k);
      }
      if i: nat, u: nat :| AnswerFor(s, i, u, k) {
        AnswerIsHad(s, i, u, k);
        OneOutcome(s, u, v, k, Post, o);
      }
    }
  }

  // ---------------------------------------------------------------- when the answer is given

  /** Answer `i` was given at step `t`, and the call that got it passed the gate at step `j`. */
  ghost predicate GivenAt(run: seq<State>, i: nat, j: nat, t: nat)
  {
    && 0 < t < |run| && |run[t].log.snapshots| == i + 1
    && LS.Linearized(Logs(run), j, t, run[t].log.snapshots[i])
  }

  /** Answer `i`, to worker `u` for request `k`, was given while `u` was handling `k`: after its dispatch, and
      before its connection was closed. */
  ghost predicate GivenInTime(run: seq<State>, i: nat, u: nat, k: nat)
  {
    exists j: nat, t: nat :: GivenAt(run, i, j, t) && forall m | j <= m < t :: Holds(run[m], u, k)
  }

  lemma {:induction false} AnswerStep(run: seq<State>, n: nat, i: nat) returns (t: nat)
    requires LS.Observed(Logs(run)) && n < |run| && run[0].log.snapshots == [] && i < |run[n].log.snapshots|
    ensures 0 < t <= n && |run[t - 1].log.snapshots| == i && |run[t].log.snapshots| == i + 1
    ensures run[t].log.snapshots <= run[n].log.snapshots
  {
    assert LS.EvolvesAt(Logs(run), n);
    if i < |run[n - 1].log.snapshots| {
      t := AnswerStep(run, n - 1, i);
    } else {
      t := n;
    }
  }

  // What the POSTs of a worker have been stays what they have been.

  lemma {:induction false} PostsPrefix(hs: seq<Handled>, n: nat)
    requires n <= |hs|
    ensures PostsOf(hs[..n]) <= PostsOf(hs)
  {
    if n == |hs| {
      assert hs[..n] == hs;
    } else {
      PostsPrefix(hs[..|hs| - 1], n);
      assert hs[..|hs| - 1][..n] == hs[..n];
    }
  }

  /** What one step does to the requests of worker `u`: those branched stay, and in the middle of a log call
      nothing changes. */
  ghost predicate Extends(wk: Worker, wk': Worker)
  {
    && Branched(wk) <= Branched(wk')
    && (wk.phase == InLog && wk'.phase == InLog ==> wk'.handled == wk.handled)
  }

  lemma HandleExtends(s: State, w: nat, o: Outcome)
    requires CanHandle(s, w, o) && Tallied(s.workers[w])
    ensures w < |HandleStep(s, w, o).workers| && Extends(s.workers[w], HandleStep(s, w, o).workers[w])
  {
  }

  lemma PhaseAfterExtends(wk: Worker, pc: P.WorkerPc, pc': P.WorkerPc)
    requires !pc.Handling? ==> wk.phase.Outside?
    requires pc.Handling? && !pc'.Handling? ==> wk.phase == Returned
    ensures Extends(wk, PhaseAfter(wk, pc, pc'))
  {
  }

  lemma PoolStepExtends(s: State, p: P.Action, u: nat)
    requires Sized(s) && Enabled(s, PoolStep(p)) && u < |s.workers|
    requires Glued(s.pool.workers[u], s.workers[u], s.log.threads[u])
    ensures u < |Apply(s, PoolStep(p)).workers| && Extends(s.workers[u], Apply(s, PoolStep(p)).workers[u])
  {
    PoolFrame(s.pool, p);
    PhaseAfterExtends(s.workers[u], s.pool.workers[u], P.Apply(s.pool, p).workers[u]);
  }

  lemma StepExtends(s: State, a: Action, u: nat)
    requires Sized(s) && Enabled(s, a) && u < |s.workers| && WorkerFine(s, u)
    ensures u < |Apply(s, a).workers| && Extends(s.workers[u], Apply(s, a).workers[u])
  {
    match a
    case PoolStep(p) => PoolStepExtends(s, p, u);
    case LogStep(_) =>
    case Handle(w, o) =>
      if w == u {
        HandleExtends(s, w, o);
      }
  }

  lemma NextExtends(s: State, s': State, u: nat)
    requires Inv(s) && Next(s, s') && u < |s.workers|
    ensures u < |s'.workers| && Extends(s.workers[u], s'.workers[u])
  {
    var a :| Enabled(s, a) && s' == Apply(s, a);
    assert WorkerFine(s, u);
    StepExtends(s, a, u);
  }

  ghost predicate ExtendsAt(run: seq<State>, t: nat, u: nat)
  {
    0 < t < |run| && u < |run[t - 1].workers| ==>
      u < |run[t].workers| && Extends(run[t - 1].workers[u], run[t].workers[u])
  }

  lemma RunExtends(run: seq<State>, u: nat)
    requires FiniteRun(run, Init, Next)
    ensures forall t :: ExtendsAt(run, t, u)
  {
    forall t: nat ensures ExtendsAt(run, t, u) {
      if 0 < t < |run| && u < |run[t - 1].workers| {
        ReachableInv(run, t - 1);
        assert StepsAt(run, Next, t);
        NextExtends(run[t - 1], run[t], u);
      }
    }
  }

  lemma {:induction false} BranchedGrows(run: seq<State>, t: nat, n: nat, u: nat)
    requires forall t :: ExtendsAt(run, t, u)
    requires t <= n < |run| && u < |run[t].workers|
    ensures u < |run[n].workers| && Branched(run[t].workers[u]) <= Branched(run[n].workers[u])
    decreases n
  {
    if t < n {
      BranchedGrows(run, t, n - 1, u);
      assert ExtendsAt(run, n, u);
    }
  }

  /** All through one call the worker is handling one request. */
  lemma {:induction false} CallIsOneRequest(run: seq<State>, j: nat, t: nat, u: nat, k: nat)
    requires j < t < |run| && forall t :: ExtendsAt(run, t, u)
    requires forall m | j <= m < t :: AnsweringPost(run[m], u) && LastIsHeld(run[m], u)
    requires AnsweringPost(run[t - 1], u) && Last(run[t - 1].workers[u].handled).k == k
    ensures forall m | j <= m < t :: Holds(run[m], u, k)
    decreases t
  {
    assert LastIsHeld(run[t - 1], u);
    if j < t - 1 {
      assert AnsweringPost(run[t - 2], u) && ExtendsAt(run, t - 1, u);
      CallIsOneRequest(run, j, t - 1, u, k);
    }
  }

  ghost predicate LastIsHeld(s: State, u: nat)
  {
    AnsweringPost(s, u) && Holds(s, u, Last(s.workers[u].handled).k)
  }

  lemma AnsweringHolds(s: State, u: nat)
    requires Full(s) && AnsweringPost(s, u)
    ensures LastIsHeld(s, u)
  {
    assert TracedAt(s, u);
  }

  /** The answer about to be given belongs to the request that its worker is handling. */
  lemma AnswerToCome(s: State, u: nat)
    requires Complete(s) && AnsweringPost(s, u) && u < |s.log.threads| && LC.Reading(s.log.threads[u].pc)
    ensures var posts := PostsOf(Branched(s.workers[u]));
            && LS.Taken(s.log.snapshots, u) == |posts| - 1
            && posts[|posts| - 1] == Last(s.workers[u].handled)
  {
    assert WorkerFine(s, u) && TracedAt(s, u) && ToldAt(s, u);
    assert LC.CallMatches(s.log.threads[u]);
    WaitsForAnswer(s.workers[u], s.log.threads[u]);
    assert Branched(s.workers[u]) == s.workers[u].handled;
  }

  lemma AnswerToComeAt(run: seq<State>, t: nat, u: nat)
    requires FiniteRun(run, Init, Next) && t < |run| && AnsweringPost(run[t], u) && LS.ReadingAt(Logs(run), t, u)
    ensures var posts := PostsOf(Branched(run[t].workers[u]));
            && LS.Taken(run[t].log.snapshots, u) == |posts| - 1
            && posts[|posts| - 1] == Last(run[t].workers[u].handled)
  {
    ReachableComplete(run, t);
    AnswerToCome(run[t], u);
  }

  /** The request of the answer given at step `t`, read off afterwards, is the one that was being handled. */
  lemma AnswerBelongs(run: seq<State>, t: nat, n: nat, i: nat, u: nat, k: nat)
    requires FiniteRun(run, Init, Next) && 0 < t <= n < |run| && AnswerFor(run[n], i, u, k)
    requires run[t - 1].log.snapshots == run[n].log.snapshots[..i]
    requires AnsweringPost(run[t - 1], u) && LS.ReadingAt(Logs(run), t - 1, u)
    ensures Last(run[t - 1].workers[u].handled).k == k
  {
    AnswerToComeAt(run, t - 1, u);
    RunExtends(run, u);
    BranchedGrows(run, t - 1, n, u);
    SamePlace(Branched(run[t - 1].workers[u]), Branched(run[n].workers[u]), AnswerPosition(run[n].log.snapshots, i));
  }

  lemma SamePlace(before: seq<Handled>, after: seq<Handled>, p: nat)
    requires before <= after && p < |PostsOf(before)|
    ensures p < |PostsOf(after)| && PostsOf(after)[p] == PostsOf(before)[p]
  {
    assert after[..|before|] == before;
    PostsPrefix(after, |before|);
  }

  lemma AnswerWasGiven(run: seq<State>, n: nat, i: nat) returns (j: nat, t: nat)
    requires FiniteRun(run, Init, Next) && n < |run| && i < |run[n].log.snapshots|
    ensures GivenAt(run, i, j, t) && t <= n && run[t - 1].log.snapshots == run[n].log.snapshots[..i]
    ensures var u := run[n].log.snapshots[i].reader;
            && LS.ReadingAt(Logs(run), t - 1, u)
            && forall m | j <= m < t :: AnsweringPost(run[m], u)
  {
    LogsAreObserved(run);
    t := AnswerStep(run, n, i);
    assert LS.Answers(Logs(run), t);
    var x, rs;
    j, x, rs := AnswersDecode(run, t);
    assert x == run[t].log.snapshots[i] == run[n].log.snapshots[i];
  }

  /** Every answer was given in time to the request it belongs to. */
  lemma AnswersAreInTime(run: seq<State>, n: nat, i: nat, u: nat, k: nat)
    requires FiniteRun(run, Init, Next) && n < |run| && AnswerFor(run[n], i, u, k)
    ensures GivenInTime(run, i, u, k)
  {
    var j, t := AnswerWasGiven(run, n, i);
    AnswerBelongs(run, t, n, i, u, k);
    RunExtends(run, u);
    forall m | j <= m < t ensures AnsweringPost(run[m], u) && LastIsHeld(run[m], u) {
      ReachableFull(run, m);
      AnsweringHolds(run[m], u);
    }
    CallIsOneRequest(run, j, t, u, k);
  }

  /** In every reachable state every closed request has exactly one answer from the log if it turned out a POST
      and none otherwise, and whatever answer there is was given while its request was being handled. */
  lemma PostsAreAnswered(run: seq<State>, n: nat, k: nat)
    requires FiniteRun(run, Init, Next) && n < |run|
    ensures run[n].pool.closed[k] > 0 ==> AnsweredRight(run[n], k)
    ensures forall i: nat, u: nat | AnswerFor(run[n], i, u, k) :: GivenInTime(run, i, u, k)
  {
    ReachableComplete(run, n);
    if run[n].pool.closed[k] > 0 {
      ClosedIsAnsweredRight(run[n], k);
    }
    forall i: nat, u: nat | AnswerFor(run[n], i, u, k) ensures GivenInTime(run, i, u, k) {
      AnswersAreInTime(run, n, i, u, k);
    }
  }
}
