/** Runs of a step system. A finite run is a sequence of states; a maximal run is a function
    from step numbers to states that moves as long as any step is possible and then stays. */
module Runs {

  ghost predicate StepsAt<S(!new)>(run: seq<S>, next: (S, S) -> bool, i: nat)
    requires 0 < i < |run|
  {
    next(run[i - 1], run[i])
  }

  ghost predicate FiniteRun<S(!new)>(run: seq<S>, init: S -> bool, next: (S, S) -> bool)
  {
    && |run| > 0
    && init(run[0])
    && forall i | 0 < i < |run| :: StepsAt(run, next, i)
  }

  ghost predicate Stuck<S(!new)>(s: S, next: (S, S) -> bool)
  {
    forall s' :: !next(s, s')
  }

  ghost predicate MovesAt<S(!new)>(run: nat -> S, next: (S, S) -> bool, i: nat)
  {
    next(run(i), run(i + 1)) || (Stuck(run(i), next) && run(i + 1) == run(i))
  }

  ghost predicate MaximalRun<S(!new)>(run: nat -> S, next: (S, S) -> bool)
  {
    forall i: nat :: MovesAt(run, next, i)
  }

  ghost predicate SteppedAt<S(!new)>(run: nat -> S, next: (S, S) -> bool, i: nat)
  {
    i > 0 && next(run(i - 1), run(i))
  }

  /** The first `n` steps. */
  ghost function Prefix<S(!new)>(run: nat -> S, n: nat): (r: seq<S>)
    ensures |r| == n + 1 && forall i: nat | i <= n :: r[i] == run(i)
  {
    seq(n + 1, i requires 0 <= i <= n => run(i))
  }

  /** As long as a maximal run moves it is a finite run. */
  lemma PrefixIsFiniteRun<S(!new)>(run: nat -> S, init: S -> bool, next: (S, S) -> bool, n: nat)
    requires init(run(0)) && forall i: nat | 0 < i <= n :: SteppedAt(run, next, i)
    ensures FiniteRun(Prefix(run, n), init, next)
  {
    forall i | 0 < i < n + 1 ensures StepsAt(Prefix(run, n), next, i) {
      assert SteppedAt(run, next, i);
    }
  }

  /** Lexicographic rank, compared left to right. */
  datatype Rank = Rank(a: nat, b: nat, c: nat, d: nat, e: nat)
  {
    predicate Above(r: Rank)
    {
      || r.a < a
      || (r.a == a && r.b < b)
      || (r.a == a && r.b == b && r.c < c)
      || (r.a == a && r.b == b && r.c == c && r.d < d)
      || (r.a == a && r.b == b && r.c == c && r.d == d && r.e < e)
    }
  }

  /** An invariant that holds initially and survives every step holds in every state of a run. */
  lemma {:induction false} InvariantOnRun<S(!new)>(
    run: seq<S>, init: S -> bool, next: (S, S) -> bool, inv: S -> bool, i: nat)
    requires FiniteRun(run, init, next) && i < |run|
    requires forall s :: init(s) ==> inv(s)
    requires forall s, s' :: inv(s) && next(s, s') ==> inv(s')
    ensures inv(run[i])
  {
    if i > 0 {
      InvariantOnRun(run, init, next, inv, i - 1);
      assert StepsAt(run, next, i);
    }
  }

  lemma {:induction false} InvariantOnMaximalRun<S(!new)>(run: nat -> S, next: (S, S) -> bool, inv: S -> bool, i: nat)
    requires MaximalRun(run, next) && inv(run(0))
    requires forall s, s' :: inv(s) && next(s, s') ==> inv(s')
    ensures inv(run(i))
  {
    if i > 0 {
      InvariantOnMaximalRun(run, next, inv, i - 1);
      assert MovesAt(run, next, i - 1);
    }
  }

  /** If every step from an invariant state lowers the rank, every maximal run reaches a state
      in which nothing can move. */
  lemma {:induction false} MaximalRunStops<S(!new)>(
    run: nat -> S, next: (S, S) -> bool, inv: S -> bool, rank: S -> Rank, from: nat) returns (n: nat)
    requires MaximalRun(run, next) && inv(run(from))
    requires forall s, s' :: inv(s) && next(s, s') ==> inv(s') && rank(s).Above(rank(s'))
    ensures n >= from && inv(run(n)) && Stuck(run(n), next)
    ensures forall i | from < i <= n :: SteppedAt(run, next, i)
    decreases rank(run(from)).a, rank(run(from)).b, rank(run(from)).c, rank(run(from)).d, rank(run(from)).e
  {
    if Stuck(run(from), next) {
      n := from;
    } else {
      assert MovesAt(run, next, from);
      assert SteppedAt(run, next, from + 1);
      n := MaximalRunStops(run, next, inv, rank, from + 1);
    }
  }
}
