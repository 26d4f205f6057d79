/** Sums of a weight over a sequence. Every counter of the C sources that should equal
    "the number of threads at some program point" is compared with such a sum. */
module Sums {

  function Bit(b: bool): int
  {
    if b then 1 else 0
  }

  function Sum<T>(xs: seq<T>, f: T -> int): int
  {
    SumTo(xs, |xs|, f)
  }

  /** The sum over the first `n` elements. */
  function SumTo<T>(xs: seq<T>, n: nat, f: T -> int): int
    requires n <= |xs|
  {
    if n == 0 then 0 else SumTo(xs, n - 1, f) + f(xs[n - 1])
  }

  lemma SumUpdate<T>(xs: seq<T>, i: nat, x: T, f: T -> int)
    requires i < |xs|
    ensures Sum(xs[i := x], f) == Sum(xs, f) - f(xs[i]) + f(x)
  {
    SumToUpdate(xs, i, x, f, |xs|);
  }

  lemma {:induction false} SumToUpdate<T>(xs: seq<T>, i: nat, x: T, f: T -> int, n: nat)
    requires i < |xs| && n <= |xs|
    ensures SumTo(xs[i := x], n, f) == SumTo(xs, n, f) + if i < n then f(x) - f(xs[i]) else 0
  {
    if n > 0 {
      SumToUpdate(xs, i, x, f, n - 1);
    }
  }

  /** Changing every element by between `lo` and `hi` changes the sum by that much per element. */
  lemma {:induction false} SumShift<T>(xs: seq<T>, ys: seq<T>, f: T -> int, lo: int, hi: int, n: nat)
    requires |xs| == |ys| && n <= |xs|
    requires forall i | 0 <= i < |xs| :: f(xs[i]) + lo <= f(ys[i]) <= f(xs[i]) + hi
    ensures SumTo(xs, n, f) + lo * n <= SumTo(ys, n, f) <= SumTo(xs, n, f) + hi * n
  {
    if n > 0 {
      SumShift(xs, ys, f, lo, hi, n - 1);
      assert lo * n == lo * (n - 1) + lo;
      assert hi * n == hi * (n - 1) + hi;
    }
  }

  lemma SumSame<T>(xs: seq<T>, ys: seq<T>, f: T -> int)
    requires |xs| == |ys|
    requires forall i | 0 <= i < |xs| :: f(xs[i]) == f(ys[i])
    ensures Sum(xs, f) == Sum(ys, f)
  {
    SumShift(xs, ys, f, 0, 0, |xs|);
  }

  lemma SumMonotone<T>(xs: seq<T>, ys: seq<T>, f: T -> int)
    requires |xs| == |ys|
    requires forall j | 0 <= j < |xs| :: f(xs[j]) <= f(ys[j])
    ensures Sum(xs, f) <= Sum(ys, f)
  {
    SumToMonotone(xs, ys, f, |xs|);
  }

  lemma {:induction false} SumToMonotone<T>(xs: seq<T>, ys: seq<T>, f: T -> int, n: nat)
    requires |xs| == |ys| && n <= |xs|
    requires forall j | 0 <= j < |xs| :: f(xs[j]) <= f(ys[j])
    ensures SumTo(xs, n, f) <= SumTo(ys, n, f)
  {
    if n > 0 {
      SumToMonotone(xs, ys, f, n - 1);
    }
  }

  lemma {:induction false} SumToAtLeast<T>(xs: seq<T>, f: T -> int, i: nat, n: nat)
    requires i < |xs| && n <= |xs|
    requires forall j | 0 <= j < |xs| :: f(xs[j]) >= 0
    ensures SumTo(xs, n, f) >= if i < n then f(xs[i]) else 0
  {
    if n > 0 {
      SumToAtLeast(xs, f, i, n - 1);
    }
  }

  lemma SumAtLeast<T>(xs: seq<T>, f: T -> int, i: nat)
    requires i < |xs|
    requires forall j | 0 <= j < |xs| :: f(xs[j]) >= 0
    ensures Sum(xs, f) >= f(xs[i])
  {
    SumToAtLeast(xs, f, i, |xs|);
  }

  lemma {:induction false} SumToAtLeastBoth<T>(xs: seq<T>, f: T -> int, i: nat, j: nat, n: nat)
    requires i < |xs| && j < |xs| && i != j && n <= |xs|
    requires forall l | 0 <= l < |xs| :: f(xs[l]) >= 0
    ensures SumTo(xs, n, f) >= (if i < n then f(xs[i]) else 0) + (if j < n then f(xs[j]) else 0)
  {
    if n > 0 {
      SumToAtLeastBoth(xs, f, i, j, n - 1);
    }
  }

  lemma SumAtLeastBoth<T>(xs: seq<T>, f: T -> int, i: nat, j: nat)
    requires i < |xs| && j < |xs| && i != j
    requires forall l | 0 <= l < |xs| :: f(xs[l]) >= 0
    ensures Sum(xs, f) >= f(xs[i]) + f(xs[j])
  {
    SumToAtLeastBoth(xs, f, i, j, |xs|);
  }

  lemma {:induction false} SumToBetween<T>(xs: seq<T>, f: T -> int, hi: int, n: nat)
    requires n <= |xs|
    requires forall j | 0 <= j < |xs| :: 0 <= f(xs[j]) <= hi
    ensures 0 <= SumTo(xs, n, f) <= hi * n
  {
    if n > 0 {
      SumToBetween(xs, f, hi, n - 1);
      assert hi * n == hi * (n - 1) + hi;
    }
  }

  lemma SumBetween<T>(xs: seq<T>, f: T -> int, hi: int)
    requires forall j | 0 <= j < |xs| :: 0 <= f(xs[j]) <= hi
    ensures 0 <= Sum(xs, f) <= hi * |xs|
  {
    SumToBetween(xs, f, hi, |xs|);
  }

  lemma {:induction false} SumToNonNegative<T>(xs: seq<T>, f: T -> int, n: nat)
    requires n <= |xs|
    requires forall j | 0 <= j < |xs| :: f(xs[j]) >= 0
    ensures SumTo(xs, n, f) >= 0
  {
    if n > 0 {
      SumToNonNegative(xs, f, n - 1);
    }
  }

  lemma SumNonNegative<T>(xs: seq<T>, f: T -> int)
    requires forall j | 0 <= j < |xs| :: f(xs[j]) >= 0
    ensures Sum(xs, f) >= 0
  {
    SumToNonNegative(xs, f, |xs|);
  }

  lemma SumZero<T>(xs: seq<T>, f: T -> int)
    requires forall j | 0 <= j < |xs| :: f(xs[j]) == 0
    ensures Sum(xs, f) == 0
  {
    SumBetween(xs, f, 0);
  }

  /** A positive sum has a positive element. */
  lemma SumWitness<T>(xs: seq<T>, f: T -> int) returns (i: nat)
    requires Sum(xs, f) > 0
    ensures i < |xs| && f(xs[i]) > 0
  {
    i := SumToWitness(xs, f, |xs|);
  }

  lemma {:induction false} SumToWitness<T>(xs: seq<T>, f: T -> int, n: nat) returns (i: nat)
    requires n <= |xs| && SumTo(xs, n, f) > 0
    ensures i < |xs| && f(xs[i]) > 0
  {
    if f(xs[n - 1]) > 0 {
      i := n - 1;
    } else {
      i := SumToWitness(xs, f, n - 1);
    }
  }

  lemma {:induction false} SumToOfSums<T>(xs: seq<T>, f: T -> int, g: T -> int, h: T -> int, n: nat)
    requires n <= |xs|
    requires forall j | 0 <= j < |xs| :: f(xs[j]) == g(xs[j]) + h(xs[j])
    ensures SumTo(xs, n, f) == SumTo(xs, n, g) + SumTo(xs, n, h)
  {
    if n > 0 {
      SumToOfSums(xs, f, g, h, n - 1);
    }
  }

  lemma SumOfSums<T>(xs: seq<T>, f: T -> int, g: T -> int, h: T -> int)
    requires forall j | 0 <= j < |xs| :: f(xs[j]) == g(xs[j]) + h(xs[j])
    ensures Sum(xs, f) == Sum(xs, g) + Sum(xs, h)
  {
    SumToOfSums(xs, f, g, h, |xs|);
  }

  lemma SumAgree<T>(xs: seq<T>, f: T -> int, g: T -> int)
    requires forall j | 0 <= j < |xs| :: f(xs[j]) == g(xs[j])
    ensures Sum(xs, f) == Sum(xs, g)
  {
    SumToAgree(xs, f, g, |xs|);
  }

  lemma {:induction false} SumToAgree<T>(xs: seq<T>, f: T -> int, g: T -> int, n: nat)
    requires n <= |xs|
    requires forall j | 0 <= j < |xs| :: f(xs[j]) == g(xs[j])
    ensures SumTo(xs, n, f) == SumTo(xs, n, g)
  {
    if n > 0 {
      SumToAgree(xs, f, g, n - 1);
    }
  }
}
