/** The growth policy of the log buffer (log.c): when it grows, to what, and what it costs. */
module Growth {

  const INITIAL_CAPACITY: nat := 4096

  function Pow2(n: nat): (p: nat)
    ensures p > 0
  {
    if n == 0 then 1 else 2 * Pow2(n - 1)
  }

  /** The doubling loop: double `capacity` until it reaches `need`. */
  function Doubled(capacity: nat, need: nat): (c: nat)
    requires capacity > 0
    ensures c >= capacity && c >= need
    decreases need - capacity
  {
    if capacity < need then Doubled(2 * capacity, need) else capacity
  }

  predicate MustGrow(capacity: nat, size: nat, len: nat)
  {
    size + len + 1 >= capacity
  }

  function NewCapacity(capacity: nat, size: nat, len: nat): nat
    requires capacity > 0
  {
    Doubled(2 * capacity, size + len + 1)
  }

  /** Capacity, bytes stored (without the terminator), and bytes moved by reallocations so far. */
  datatype Usage = Usage(capacity: nat, size: nat, moved: nat)

  function CreateUsage(): Usage
  {
    Usage(INITIAL_CAPACITY, 0, 0)
  }

  function MakeRoom(u: Usage, len: nat): Usage
    requires u.capacity > 0
  {
    if MustGrow(u.capacity, u.size, len) then
      Usage(NewCapacity(u.capacity, u.size, len), u.size, u.moved + u.size)
    else u
  }

  function AppendUsage(u: Usage, len: nat): Usage
    requires u.capacity > 0
  {
    MakeRoom(u, len).(size := u.size + len)
  }

  ghost predicate IsScaled(capacity: nat)
  {
    exists j: nat :: capacity == INITIAL_CAPACITY * Pow2(j)
  }

  function Max(a: int, b: int): int
  {
    if a < b then b else a
  }

  /** The promise after each append. `upcoming` is the part of an append still to be stored. */
  ghost predicate Bounded(u: Usage, upcoming: nat)
  {
    && IsScaled(u.capacity)
    && u.size + upcoming < u.capacity <= Max(INITIAL_CAPACITY, 2 * (u.size + upcoming + 1))
    && u.moved <= u.capacity - INITIAL_CAPACITY
  }

  /** The loop stops at the least doubling that is large enough. */
  lemma {:induction false} DoubledIsLeast(capacity: nat, need: nat)
    requires capacity > 0
    ensures exists j: nat :: Doubled(capacity, need) == capacity * Pow2(j)
    ensures Doubled(capacity, need) == capacity || Doubled(capacity, need) < 2 * need
    decreases need - capacity
  {
    if capacity < need {
      DoubledIsLeast(2 * capacity, need);
      var j: nat :| Doubled(2 * capacity, need) == 2 * capacity * Pow2(j);
      OneMoreDoubling(capacity, j);
    } else {
      assert capacity == capacity * Pow2(0);
    }
  }

  lemma OneMoreDoubling(capacity: nat, j: nat)
    ensures 2 * capacity * Pow2(j) == capacity * Pow2(j + 1)
  {
    Associate(capacity, 2, Pow2(j));
  }

  lemma CapacityStaysScaled(capacity: nat, need: nat)
    requires capacity > 0 && IsScaled(capacity)
    ensures IsScaled(Doubled(2 * capacity, need))
  {
    DoubledIsLeast(2 * capacity, need);
    var j: nat :| capacity == INITIAL_CAPACITY * Pow2(j);
    var m: nat :| Doubled(2 * capacity, need) == 2 * capacity * Pow2(m);
    PowersMultiply(j + 1, m);
    assert Pow2(j + 1) == 2 * Pow2(j);
    Associate(INITIAL_CAPACITY, Pow2(j + 1), Pow2(m));
    assert Doubled(2 * capacity, need) == INITIAL_CAPACITY * Pow2(j + 1 + m);
  }

  lemma Associate(x: nat, y: nat, z: nat)
    ensures (x * y) * z == x * (y * z)
  {
  }

  lemma {:induction false} PowersMultiply(m: nat, n: nat)
    ensures Pow2(m) * Pow2(n) == Pow2(m + n)
  {
    if n > 0 {
      PowersMultiply(m, n - 1);
      assert Pow2(m) * Pow2(n) == 2 * (Pow2(m) * Pow2(n - 1));
    } else {
      assert Pow2(m) * 1 == Pow2(m);
    }
  }

  /** Making room keeps the promise, now with `len` bytes upcoming. */
  lemma MakeRoomKeepsBound(u: Usage, len: nat)
    requires Bounded(u, 0) && u.capacity > 0
    ensures Bounded(MakeRoom(u, len), len)
  {
    if MustGrow(u.capacity, u.size, len) {
      DoubledIsLeast(2 * u.capacity, u.size + len + 1);
      CapacityStaysScaled(u.capacity, u.size + len + 1);
    }
  }

  function AppendAll(u: Usage, lens: seq<nat>): Usage
    requires u.capacity > 0
    decreases lens
  {
    if lens == [] then u
    else
      AppendAll(AppendUsage(u, lens[0]), lens[1..])
  }

  function Total(lens: seq<nat>): nat
  {
    if lens == [] then 0 else lens[0] + Total(lens[1..])
  }

  /** Amortised growth over any sequence of appends to a fresh log. */
  lemma {:induction false} GrowthIsAmortised(u: Usage, lens: seq<nat>)
    requires Bounded(u, 0)
    ensures var v := AppendAll(u, lens);
            && Bounded(v, 0)
            && v.size == u.size + Total(lens)
            && v.moved <= 2 * v.size
    decreases lens
  {
    if lens != [] {
      MakeRoomKeepsBound(u, lens[0]);
      GrowthIsAmortised(AppendUsage(u, lens[0]), lens[1..]);
    }
  }

  lemma CreatedBounded()
    ensures Bounded(CreateUsage(), 0)
  {
    assert INITIAL_CAPACITY == INITIAL_CAPACITY * Pow2(0);
  }
}
